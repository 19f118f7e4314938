/** The capped table in which the monitoring agent aggregates analytics events until
    a sample takes them along. */
module AnalyticsTable {
  import opened Options

  const MAX_CELLS := 512
  const MAX_COUNT := 10_000_000
  const MAX_AGE_MS := 60_000
  const MAX_INGRESS := 1000
  const BOUNDS: seq<real> := [10.0, 50.0, 100.0, 200.0, 500.0, 1000.0, 2500.0]

  /** Everything that tells cells apart; `request` is whether its kind is a request. */
  datatype Key = Key(request: bool, dimensions: string)

  /** Events carry a count of one. */
  datatype Event =
    | Request(dimensions: string, bytes: nat, durationMs: real)
    | Browser(dimensions: string, visibleMs: Option<int>)

  datatype Cell = Cell(count: nat, visibleMs: Option<int>, bytes: nat, durationMs: real, histogram: seq<nat>)

  function KeyOf(e: Event): Key {
    Key(e.Request?, e.dimensions)
  }

  datatype Arrival = Arrival(event: Event, at: int)

  /** `waiting` is history: the pending events and when they arrived. */
  datatype Table = Table(
    cells: map<Key, Cell>,
    dropped: nat,
    period: Option<int>,
    ingressWindow: int,
    ingressCount: nat,
    waiting: seq<Arrival>)

  const ZEROS: seq<nat> := [0, 0, 0, 0, 0, 0, 0, 0]
  const EMPTY_CELL := Cell(0, None, 0, 0.0, ZEROS)

  // ---------- one event ----------

  /** The first bound that the duration does not exceed; ten milliseconds count as above the first. */
  function BucketFrom(durationMs: real, i: nat): (b: nat)
    requires i <= 7
    ensures i <= b <= 7
    decreases 7 - i
  {
    if i < 7 && (durationMs > BOUNDS[i] || (i == 0 && durationMs == 10.0)) then BucketFrom(durationMs, i + 1) else i
  }

  /** Buckets are the ranges [0, 10), [10, 50], (50, 100] and so on. */
  lemma BucketIsRange(durationMs: real)
    ensures var b := BucketFrom(durationMs, 0);
            && (b == 0 <==> durationMs < 10.0)
            && (b == 1 <==> 10.0 <= durationMs <= 50.0)
            && (2 <= b < 7 ==> BOUNDS[b - 1] < durationMs <= BOUNDS[b])
            && (b == 7 <==> durationMs > 2500.0)
  {
  }

  function Longer(a: Option<int>, b: Option<int>): Option<int> {
    if a.Some? && (b.None? || a.value > b.value) then a else b
  }

  function Merge(prior: Cell, e: Event): Cell
    requires |prior.histogram| == 8
  {
    match e
    case Request(_, bytes, durationMs) =>
      var b := BucketFrom(durationMs, 0);
      prior.(count := prior.count + 1, bytes := prior.bytes + bytes, durationMs := prior.durationMs + durationMs,
             histogram := prior.histogram[b := prior.histogram[b] + 1])
    case Browser(_, visibleMs) =>
      prior.(count := prior.count + 1, visibleMs := Longer(visibleMs, prior.visibleMs))
  }

  ghost function Pending(cells: map<Key, Cell>): nat {
    if cells == map[] then 0
    else
      var k :| k in cells;
      cells[k].count + Pending(cells - {k})
  }

  /** Events that have waited for more than a minute are given up. */
  ghost function Expire(t: Table, now: int): Table {
    if t.period.None? then t.(period := Some(now))
    else if now - t.period.value > MAX_AGE_MS then
      t.(dropped := t.dropped + Pending(t.cells), cells := map[], period := Some(now), waiting := [])
    else t
  }

  predicate Shaped(t: Table) {
    forall k | k in t.cells :: |t.cells[k].histogram| == 8
  }

  ghost function Add(t: Table, e: Event, now: int): Table
    requires Shaped(t)
  {
    var t' := Expire(t, now);
    var key := KeyOf(e);
    if key !in t'.cells && |t'.cells| >= MAX_CELLS then t'.(dropped := t'.dropped + 1)
    else
      var prior := if key in t'.cells then t'.cells[key] else EMPTY_CELL;
      if prior.count >= MAX_COUNT then t'.(dropped := t'.dropped + 1)
      else t'.(cells := t'.cells[key := Merge(prior, e)], waiting := t'.waiting + [Arrival(e, now)])
  }

  /** At most MAX_INGRESS events per second are let in. */
  function Admit(t: Table, second: int): (Table, bool) {
    var t1 := if t.ingressWindow != second then t.(ingressWindow := second, ingressCount := 0) else t;
    var t2 := t1.(ingressCount := t1.ingressCount + 1);
    if t2.ingressCount > MAX_INGRESS then (t2.(dropped := t2.dropped + 1), false) else (t2, true)
  }

  /** What a sample takes along: the unexpired cells and the number dropped so far. */
  datatype Taken = Taken(cells: map<Key, Cell>, dropped: nat, waiting: seq<Arrival>)

  /** The table is emptied only when the sample has been queued. */
  ghost function Flush(t: Table, now: int, queued: bool): (Table, Taken) {
    var t' := Expire(t, now);
    (if queued then t'.(cells := map[], period := None, waiting := []) else t',
     Taken(t'.cells, t'.dropped, t'.waiting))
  }

  // ---------- counting over maps ----------

  lemma {:induction false} PendingRemove(cells: map<Key, Cell>, k: Key)
    requires k in cells
    ensures Pending(cells) == cells[k].count + Pending(cells - {k})
    decreases |cells|
  {
    var j :| j in cells && Pending(cells) == cells[j].count + Pending(cells - {j});
    if j != k {
      PendingRemove(cells - {j}, k);
      PendingRemove(cells - {k}, j);
      assert cells - {j} - {k} == cells - {k} - {j};
    }
  }

  lemma PendingUpdate(cells: map<Key, Cell>, k: Key, c: Cell)
    ensures Pending(cells[k := c]) == Pending(cells) + c.count - if k in cells then cells[k].count else 0
  {
    PendingRemove(cells[k := c], k);
    if k in cells {
      PendingRemove(cells, k);
      assert cells[k := c] - {k} == cells - {k};
    } else {
      assert cells[k := c] - {k} == cells;
    }
  }

  // ---------- the invariant ----------

  function Sum(xs: seq<nat>): nat {
    if xs == [] then 0 else xs[0] + Sum(xs[1..])
  }

  lemma {:induction false} SumBump(xs: seq<nat>, i: nat)
    requires i < |xs|
    ensures Sum(xs[i := xs[i] + 1]) == Sum(xs) + 1
  {
    if i > 0 {
      assert xs[i := xs[i] + 1][1..] == xs[1..][i - 1 := xs[1..][i - 1] + 1];
      SumBump(xs[1..], i - 1);
    }
  }

  /** What the receiver demands of a cell's numbers. */
  predicate Acceptable(k: Key, c: Cell) {
    && 1 <= c.count <= 10_000_000 && |c.histogram| == 8
    && (forall i | 0 <= i < 8 :: c.histogram[i] <= 10_000_000)
    && if k.request then Sum(c.histogram) == c.count && c.visibleMs.None?
       else c.histogram == ZEROS && c.bytes == 0 && c.durationMs == 0.0
  }

  /** Cells that a sample may carry to the receiver. */
  predicate Deliverable(cells: map<Key, Cell>) {
    |cells| <= 512 && forall k | k in cells :: Acceptable(k, cells[k])
  }

  // ---------- what a cell says of its events ----------

  /** A cell is for the events of one kind with the same dimensions. */
  predicate Of(e: Event, k: Key) {
    e.Request? == k.request && e.dimensions == k.dimensions
  }

  /** The latency ranges of the histogram, in milliseconds. */
  predicate InRange(ms: real, i: nat) {
    match i
    case 0 => ms < 10.0
    case 1 => 10.0 <= ms <= 50.0
    case 2 => 50.0 < ms <= 100.0
    case 3 => 100.0 < ms <= 200.0
    case 4 => 200.0 < ms <= 500.0
    case 5 => 500.0 < ms <= 1000.0
    case 6 => 1000.0 < ms <= 2500.0
    case 7 => 2500.0 < ms
    case _ => false
  }

  function Count(ws: seq<Arrival>, k: Key): nat {
    if ws == [] then 0
    else Count(ws[..|ws| - 1], k) + if Of(ws[|ws| - 1].event, k) then 1 else 0
  }

  function Bytes(ws: seq<Arrival>, k: Key): nat {
    if ws == [] then 0
    else
      var e := ws[|ws| - 1].event;
      Bytes(ws[..|ws| - 1], k) + if e.Request? && Of(e, k) then e.bytes else 0
  }

  function Duration(ws: seq<Arrival>, k: Key): real {
    if ws == [] then 0.0
    else
      var e := ws[|ws| - 1].event;
      Duration(ws[..|ws| - 1], k) + if e.Request? && Of(e, k) then e.durationMs else 0.0
  }

  /** How many of the events of a cell took a time in the i-th range. */
  function CountIn(ws: seq<Arrival>, k: Key, i: nat): nat {
    if ws == [] then 0
    else
      var e := ws[|ws| - 1].event;
      CountIn(ws[..|ws| - 1], k, i) + if e.Request? && Of(e, k) && InRange(e.durationMs, i) then 1 else 0
  }

  /** The longest visible time among the events of a cell, if any has one. */
  function Visible(ws: seq<Arrival>, k: Key): Option<int> {
    if ws == [] then None
    else
      var e, before := ws[|ws| - 1].event, Visible(ws[..|ws| - 1], k);
      if e.Browser? && Of(e, k) && e.visibleMs.Some? && (before.None? || before.value < e.visibleMs.value) then e.visibleMs
      else before
  }

  predicate Summary(ws: seq<Arrival>, k: Key, c: Cell) {
    && c.count == Count(ws, k) && c.bytes == Bytes(ws, k) && c.durationMs == Duration(ws, k) && c.visibleMs == Visible(ws, k)
    && |c.histogram| == 8 && forall i | 0 <= i < 8 :: c.histogram[i] == CountIn(ws, k, i)
  }

  /** The cells are those of the pending events, and each says of its events what they were. */
  predicate Summarized(cells: map<Key, Cell>, ws: seq<Arrival>) {
    && (forall k | k in cells :: Summary(ws, k, cells[k]))
    && forall a | a in ws :: Key(a.event.Request?, a.event.dimensions) in cells
  }

  lemma {:induction false} VisibleIsLongest(ws: seq<Arrival>, k: Key)
    ensures forall a | a in ws && a.event.Browser? && Of(a.event, k) && a.event.visibleMs.Some? ::
              Visible(ws, k).Some? && a.event.visibleMs.value <= Visible(ws, k).value
    ensures Visible(ws, k).Some? ==> exists a | a in ws :: a.event.Browser? && Of(a.event, k) && a.event.visibleMs == Visible(ws, k)
  {
    if ws != [] {
      var front := ws[..|ws| - 1];
      VisibleIsLongest(front, k);
      assert ws == front + [ws[|ws| - 1]];
    }
  }

  lemma {:induction false} NothingOf(ws: seq<Arrival>, k: Key)
    requires forall a | a in ws :: !Of(a.event, k)
    ensures Summary(ws, k, EMPTY_CELL)
  {
    if ws != [] {
      var front := ws[..|ws| - 1];
      assert forall a | a in front :: a in ws;
      assert !Of(ws[|ws| - 1].event, k);
      NothingOf(front, k);
      forall i | 0 <= i < 8 ensures CountIn(ws, k, i) == 0 { assert CountIn(front, k, i) == EMPTY_CELL.histogram[i]; }
    }
  }

  lemma RangeOfBucket(ms: real, i: nat)
    requires i < 8
    ensures InRange(ms, i) <==> i == BucketFrom(ms, 0)
  {
    BucketIsRange(ms);
  }

  /** Merging an event keeps the summary of its cell. */
  lemma MergeSummarizes(ws: seq<Arrival>, k: Key, prior: Cell, e: Event, now: int)
    requires Summary(ws, k, prior) && Of(e, k)
    ensures Summary(ws + [Arrival(e, now)], k, Merge(prior, e))
  {
    var all, c := ws + [Arrival(e, now)], Merge(prior, e);
    assert all[..|all| - 1] == ws;
    forall i | 0 <= i < 8 ensures c.histogram[i] == CountIn(all, k, i) {
      assert prior.histogram[i] == CountIn(ws, k, i);
      if e.Request? { RangeOfBucket(e.durationMs, i); }
    }
  }

  lemma OthersStay(ws: seq<Arrival>, k: Key, c: Cell, e: Event, now: int)
    requires Summary(ws, k, c) && !Of(e, k)
    ensures Summary(ws + [Arrival(e, now)], k, c)
  {
    var all := ws + [Arrival(e, now)];
    assert all[..|all| - 1] == ws;
    forall i | 0 <= i < 8 ensures c.histogram[i] == CountIn(all, k, i) { assert c.histogram[i] == CountIn(ws, k, i); }
  }

  lemma KeyIsExact(e: Event, k: Key)
    ensures Of(e, k) <==> k == KeyOf(e)
  {
  }

  lemma StoreSummarizes(cells: map<Key, Cell>, ws: seq<Arrival>, e: Event, now: int)
    requires Summarized(cells, ws)
    ensures var k := KeyOf(e);
            var prior := if k in cells then cells[k] else EMPTY_CELL;
            |prior.histogram| == 8 && Summarized(cells[k := Merge(prior, e)], ws + [Arrival(e, now)])
  {
    var k := KeyOf(e);
    var prior := if k in cells then cells[k] else EMPTY_CELL;
    if k !in cells {
      forall a | a in ws ensures !Of(a.event, k) { KeyIsExact(a.event, k); }
      NothingOf(ws, k);
    }
    KeyIsExact(e, k);
    MergeSummarizes(ws, k, prior, e, now);
    var cells' := cells[k := Merge(prior, e)];
    forall j | j in cells' ensures Summary(ws + [Arrival(e, now)], j, cells'[j]) {
      if j != k {
        KeyIsExact(e, j);
        OthersStay(ws, j, cells[j], e, now);
      }
    }
  }

  ghost predicate Inv(t: Table) {
    && Deliverable(t.cells)
    && |t.waiting| == Pending(t.cells) && Summarized(t.cells, t.waiting)
    && (t.period.None? ==> t.cells == map[])
    && forall a | a in t.waiting :: t.period.Some? && t.period.value <= a.at
  }

  lemma {:induction false} SumBounds(xs: seq<nat>, i: nat)
    requires i < |xs|
    ensures xs[i] <= Sum(xs)
  {
    if i > 0 { SumBounds(xs[1..], i - 1); }
  }

  lemma MergeIsAcceptable(k: Key, prior: Cell, e: Event)
    requires k == KeyOf(e) && (Acceptable(k, prior) || prior == EMPTY_CELL) && prior.count < MAX_COUNT
    ensures Acceptable(k, Merge(prior, e)) && Merge(prior, e).count == prior.count + 1
  {
    if e.Request? {
      assert prior == EMPTY_CELL ==> Sum(prior.histogram) == 0 by { SumOfZeros(); }
      BumpIsBounded(prior.histogram, BucketFrom(e.durationMs, 0));
    }
  }

  lemma BumpIsBounded(xs: seq<nat>, b: nat)
    requires b < |xs| && Sum(xs) < MAX_COUNT
    ensures var ys := xs[b := xs[b] + 1]; Sum(ys) == Sum(xs) + 1 && forall i | 0 <= i < |xs| :: ys[i] <= MAX_COUNT
  {
    var ys := xs[b := xs[b] + 1];
    SumBump(xs, b);
    forall i | 0 <= i < |xs| ensures ys[i] <= MAX_COUNT { SumBounds(ys, i); }
  }

  lemma SumOfZeros()
    ensures Sum(ZEROS) == 0
  {
    var zeros: seq<nat> := seq(8, _ => 0);
    assert ZEROS == zeros;
    ZerosSum(zeros);
  }

  lemma {:induction false} ZerosSum(xs: seq<nat>)
    requires forall i | 0 <= i < |xs| :: xs[i] == 0
    ensures Sum(xs) == 0
  {
    if xs != [] { ZerosSum(xs[1..]); }
  }

  /** Nothing is lost: what the table accounts for. */
  ghost function Accounted(t: Table): nat {
    t.dropped + Pending(t.cells)
  }

  lemma ExpireKeeps(t: Table, now: int)
    requires Inv(t)
    ensures Inv(Expire(t, now)) && Accounted(Expire(t, now)) == Accounted(t)
    ensures Expire(t, now).period.Some?
  {
  }

  lemma StoreKeeps(t: Table, k: Key, prior: Cell, e: Event, now: int)
    requires Inv(t) && t.period.Some? && t.period.value <= now && k == KeyOf(e)
    requires prior == (if k in t.cells then t.cells[k] else EMPTY_CELL) && prior.count < MAX_COUNT
    requires k in t.cells || |t.cells| < MAX_CELLS
    ensures var t' := t.(cells := t.cells[k := Merge(prior, e)], waiting := t.waiting + [Arrival(e, now)]);
            Inv(t') && Accounted(t') == Accounted(t) + 1
  {
    var cells', waiting' := t.cells[k := Merge(prior, e)], t.waiting + [Arrival(e, now)];
    StoreCounts(t.cells, k, prior, e);
    StoreSummarizes(t.cells, t.waiting, e, now);
    Holds(t, cells', waiting');
  }

  lemma Holds(t: Table, cells: map<Key, Cell>, waiting: seq<Arrival>)
    requires Deliverable(cells) && Summarized(cells, waiting) && |waiting| == Pending(cells) && t.period.Some?
    requires forall a | a in waiting :: t.period.value <= a.at
    ensures Inv(t.(cells := cells, waiting := waiting))
  {
  }

  lemma StoreCounts(cells: map<Key, Cell>, k: Key, prior: Cell, e: Event)
    requires Deliverable(cells) && k == KeyOf(e) && (k in cells || |cells| < MAX_CELLS)
    requires prior == (if k in cells then cells[k] else EMPTY_CELL) && prior.count < MAX_COUNT
    ensures Deliverable(cells[k := Merge(prior, e)]) && Pending(cells[k := Merge(prior, e)]) == Pending(cells) + 1
  {
    MergeIsAcceptable(k, prior, e);
    PendingUpdate(cells, k, Merge(prior, e));
    StoreFits(cells, k, Merge(prior, e));
  }

  lemma StoreFits(cells: map<Key, Cell>, k: Key, c: Cell)
    requires k in cells || |cells| < MAX_CELLS
    requires Deliverable(cells) && Acceptable(k, c)
    ensures Deliverable(cells[k := c])
  {
    assert cells[k := c].Keys == cells.Keys + {k};
    assert |cells[k := c].Keys| == |cells[k := c]| && |cells.Keys| == |cells|;
  }

  /** Every event that reaches the table is either pending or counted as dropped. */
  lemma AddKeeps(t: Table, e: Event, now: int)
    requires Inv(t) && (t.period.Some? ==> t.period.value <= now)
    ensures Inv(Add(t, e, now)) && Accounted(Add(t, e, now)) == Accounted(t) + 1
    ensures Add(t, e, now).period.Some? && Add(t, e, now).period.value <= now
  {
    ExpireKeeps(t, now);
    AddUnexpiredKeeps(Expire(t, now), e, now);
  }

  lemma AddUnexpiredKeeps(t: Table, e: Event, now: int)
    requires Inv(t) && t.period.Some? && t.period.value <= now && Expire(t, now) == t
    ensures Inv(Add(t, e, now)) && Accounted(Add(t, e, now)) == Accounted(t) + 1 && Add(t, e, now).period == t.period
  {
    var key := KeyOf(e);
    var prior := if key in t.cells then t.cells[key] else EMPTY_CELL;
    if prior.count < MAX_COUNT && (key in t.cells || |t.cells| < MAX_CELLS) { StoreKeeps(t, key, prior, e, now); }
  }

  /** An event joins those that wait unless its cell holds ten million or a new cell would be the 513th, and only
      events that have waited for more than a minute are given up for it. */
  lemma AddTakesUnlessFull(t: Table, e: Event, now: int)
    requires Inv(t)
    ensures var late := t.period.Some? && now - t.period.value > 60_000;
            var kept, cells := if late then [] else t.waiting, if late then map[] else t.cells;
            var key := Key(e.Request?, e.dimensions);
            var room := if key in cells then cells[key].count < 10_000_000 else |cells| < 512;
            Add(t, e, now).waiting == if room then kept + [Arrival(e, now)] else kept
  {
    ExpireKeeps(t, now);
  }

  /** A flush hands over exactly the pending events, all at most a minute old and in cells the
      receiver accepts; when it fails they all stay. */
  lemma FlushKeeps(t: Table, now: int, queued: bool)
    requires Inv(t)
    ensures var (t', taken) := Flush(t, now, queued);
            && Inv(t')
            && Deliverable(taken.cells) && taken.dropped == t'.dropped
            && |taken.waiting| == Pending(taken.cells) && Summarized(taken.cells, taken.waiting)
            && (forall a | a in taken.waiting :: now - a.at <= 60_000)
            && (queued ==> Accounted(t') + Pending(taken.cells) == Accounted(t) && t'.cells == map[])
            && (!queued ==> t'.cells == taken.cells && t'.waiting == taken.waiting && Accounted(t') == Accounted(t))
  {
    ExpireKeeps(t, now);
  }

  /** After a flush that was queued the first event begins a new minute: it is taken, whenever it comes, and
      nothing is given up in that minute. */
  lemma AfterFlushStartsAnew(t: Table, now: int, e: Event, later: int, d: Event, last: int)
    requires Inv(t) && last <= later + 60_000
    ensures var t' := Flush(t, now, true).0;
            Inv(t') && Inv(Add(t', e, later))
            && Add(t', e, later).waiting == [Arrival(e, later)] && Add(t', e, later).dropped == t'.dropped
            && Arrival(e, later) in Add(Add(t', e, later), d, last).waiting
  {
    var t' := Flush(t, now, true).0;
    FlushKeeps(t, now, true);
    AddTakesUnlessFull(t', e, later);
    AddKeeps(t', e, later);
    AddTakesUnlessFull(Add(t', e, later), d, last);
  }

  // ---------- whole runs ----------

  datatype Happening =
    | Ingress(second: int)
    | Reached(event: Event, now: int)
    | Flushed(now: int, queued: bool)

  /** A run with its totals: events rejected at ingress, events that reached the table, events sent. */
  datatype Run = Run(table: Table, rejected: nat, reached: nat, sent: nat, clock: int)

  const FRESH := Table(map[], 0, None, 0, 0, [])

  ghost function Next(r: Run, h: Happening): Run
    requires Shaped(r.table)
  {
    match h
    case Ingress(second) =>
      var (t, ok) := Admit(r.table, second);
      r.(table := t, rejected := r.rejected + if ok then 0 else 1)
    case Reached(e, now) => r.(table := Add(r.table, e, now), reached := r.reached + 1, clock := now)
    case Flushed(now, queued) =>
      var (t, taken) := Flush(r.table, now, queued);
      r.(table := t, sent := r.sent + (if queued then Pending(taken.cells) else 0), clock := now)
  }

  ghost predicate Conserved(r: Run) {
    && Inv(r.table) && r.rejected + r.reached == Accounted(r.table) + r.sent
    && (r.table.period.Some? ==> r.table.period.value <= r.clock)
  }

  predicate Monotone(clock: int, h: Happening) {
    !h.Ingress? ==> clock <= h.now
  }

  lemma NextConserves(r: Run, h: Happening)
    requires Conserved(r) && Monotone(r.clock, h)
    ensures Conserved(Next(r, h))
  {
    match h
    case Ingress(_) =>
    case Reached(e, now) => AddKeeps(r.table, e, now);
    case Flushed(now, queued) => FlushKeeps(r.table, now, queued);
  }

  ghost predicate IsRun(rs: seq<Run>, hs: seq<Happening>) {
    && |rs| == |hs| + 1 && rs[0].table == FRESH && rs[0].rejected == rs[0].reached == rs[0].sent == 0
    && forall i | 0 <= i < |hs| :: Monotone(rs[i].clock, hs[i]) && Shaped(rs[i].table) && rs[i + 1] == Next(rs[i], hs[i])
  }

  /** Conservation: at every moment of every run on a monotone clock, the events rejected
      at ingress and those that reached the table are exactly the dropped, the pending and the sent. */
  lemma {:induction false} RunConserves(rs: seq<Run>, hs: seq<Happening>, n: nat)
    requires IsRun(rs, hs) && n <= |hs|
    ensures Inv(rs[n].table)
    ensures rs[n].rejected + rs[n].reached == rs[n].table.dropped + Pending(rs[n].table.cells) + rs[n].sent
    ensures Conserved(rs[n])
  {
    if n > 0 {
      RunConserves(rs, hs, n - 1);
      NextConserves(rs[n - 1], hs[n - 1]);
    }
  }

  /** The events that have reached the table, in order. */
  function Arrivals(hs: seq<Happening>): seq<Arrival> {
    if hs == [] then []
    else
      var h := hs[|hs| - 1];
      Arrivals(hs[..|hs| - 1]) + if h.Reached? then [Arrival(h.event, h.now)] else []
  }

  lemma NextWaits(r: Run, h: Happening)
    requires Inv(r.table)
    ensures multiset(Next(r, h).table.waiting)
            <= multiset(r.table.waiting) + if h.Reached? then multiset{Arrival(h.event, h.now)} else multiset{}
  {
    match h
    case Ingress(_) =>
    case Reached(e, now) => AddTakesUnlessFull(r.table, e, now);
    case Flushed(now, queued) => FlushKeeps(r.table, now, queued);
  }

  /** At every moment each cell says what the events of its key that wait in it come to, and those that wait are some
      of the events that have reached the table, each of them once. */
  lemma {:induction false} CellsAreSums(rs: seq<Run>, hs: seq<Happening>, n: nat)
    requires IsRun(rs, hs) && n <= |hs|
    ensures Summarized(rs[n].table.cells, rs[n].table.waiting) && |rs[n].table.waiting| == Pending(rs[n].table.cells)
    ensures multiset(rs[n].table.waiting) <= multiset(Arrivals(hs[..n]))
  {
    RunConserves(rs, hs, n);
    if n > 0 {
      CellsAreSums(rs, hs, n - 1);
      RunConserves(rs, hs, n - 1);
      StillArrived(rs[n - 1], hs, n - 1);
    }
  }

  lemma StillArrived(r: Run, hs: seq<Happening>, i: nat)
    requires i < |hs| && Inv(r.table) && multiset(r.table.waiting) <= multiset(Arrivals(hs[..i]))
    ensures multiset(Next(r, hs[i]).table.waiting) <= multiset(Arrivals(hs[..i + 1]))
  {
    NextWaits(r, hs[i]);
    assert hs[..i + 1][..i] == hs[..i];
  }

  // ---------- the ingress limit ----------

  /** n calls in one second, and how many of them were let in. */
  function AdmitMany(t: Table, second: int, n: nat): (Table, nat) {
    if n == 0 then (t, 0)
    else
      var (t1, admitted) := AdmitMany(t, second, n - 1);
      var (t2, ok) := Admit(t1, second);
      (t2, admitted + if ok then 1 else 0)
  }

  /** Of the calls of a new second exactly the first thousand are let in; the others count as dropped. */
  lemma {:induction false} IngressIsBounded(t: Table, second: int, n: nat)
    requires t.ingressWindow != second
    ensures var (t', admitted) := AdmitMany(t, second, n);
            && admitted == (if n <= 1000 then n else 1000)
            && t'.dropped + admitted == t.dropped + n
            && (n > 0 ==> t'.ingressWindow == second && t'.ingressCount == n)
            && (n == 0 ==> t' == t)
  {
    if n > 0 { IngressIsBounded(t, second, n - 1); }
  }
}
