/** The names of queued samples: the collection time in decimal fields of fixed width, so
    that the order of names is the order of times. */
module SampleNames {
  import opened Decimal

  // ---------- order ----------

  /** The order in which a directory of names is sorted. */
  predicate Before(s: string, t: string) {
    t != "" && (s == "" || s[0] < t[0] || (s[0] == t[0] && Before(s[1..], t[1..])))
  }

  /** The first field that differs decides. */
  predicate Earlier(xs: seq<nat>, ys: seq<nat>) {
    xs != [] && ys != [] && (xs[0] < ys[0] || (xs[0] == ys[0] && Earlier(xs[1..], ys[1..])))
  }

  lemma {:induction false} BeforeAppended(s: string, t: string, more: string, rest: string)
    requires |s| == |t| && (Before(s, t) || (s == t && Before(more, rest)))
    ensures Before(s + more, t + rest)
  {
    if s == "" {
      assert s + more == more && t + rest == rest;
    } else {
      assert (s + more)[1..] == s[1..] + more && (t + rest)[1..] == t[1..] + rest;
      if s[0] == t[0] { BeforeAppended(s[1..], t[1..], more, rest); }
    }
  }

  lemma {:induction false} EarlierAppended(xs: seq<nat>, ys: seq<nat>, x: nat, y: nat)
    requires |xs| == |ys| && (Earlier(xs, ys) || (xs == ys && x < y))
    ensures Earlier(xs + [x], ys + [y])
  {
    if xs != [] {
      assert (xs + [x])[1..] == xs[1..] + [x] && (ys + [y])[1..] == ys[1..] + [y];
      if xs[0] == ys[0] { EarlierAppended(xs[1..], ys[1..], x, y); }
    }
  }

  lemma {:induction false} BeforeIsStrict(s: string, t: string)
    ensures !(Before(s, t) && Before(t, s)) && !Before(s, s)
  {
    if s != "" { BeforeIsStrict(s[1..], if t == "" then "" else t[1..]); }
  }

  // ---------- fields of fixed width ----------

  function Pow10(w: nat): nat {
    if w == 0 then 1 else 10 * Pow10(w - 1)
  }

  function Pad(n: nat, w: nat): (s: string)
    ensures |s| == w
  {
    if w == 0 then "" else Pad(n / 10, w - 1) + [DIGITS[n % 10]]
  }

  lemma DigitsAscend(a: nat, b: nat)
    requires a < b < 10
    ensures DIGITS[a] < DIGITS[b]
  {
  }

  /** Padded numbers sort as numbers. */
  lemma {:induction false} PaddedInOrder(n: nat, m: nat, w: nat)
    requires n < m < Pow10(w)
    ensures Before(Pad(n, w), Pad(m, w))
    decreases w
  {
    var a, b := Pad(n / 10, w - 1), Pad(m / 10, w - 1);
    var c, d := [DIGITS[n % 10]], [DIGITS[m % 10]];
    if n / 10 < m / 10 {
      PaddedInOrder(n / 10, m / 10, w - 1);
    } else {
      DigitsAscend(n % 10, m % 10);
    }
    BeforeAppended(a, b, c, d);
  }

  /** The width of every field and the text after it. */
  datatype Layout = Layout(width: nat, after: string)

  function Rendered(values: seq<nat>, layout: seq<Layout>): string
    requires |values| == |layout|
  {
    if values == [] then "" else Pad(values[0], layout[0].width) + layout[0].after + Rendered(values[1..], layout[1..])
  }

  predicate Fits(values: seq<nat>, layout: seq<Layout>) {
    |values| == |layout| && forall i | 0 <= i < |values| :: values[i] < Pow10(layout[i].width)
  }

  lemma {:induction false} RenderedInOrder(xs: seq<nat>, ys: seq<nat>, layout: seq<Layout>)
    requires Fits(xs, layout) && Fits(ys, layout) && Earlier(xs, ys)
    ensures Before(Rendered(xs, layout), Rendered(ys, layout))
  {
    var w, after := layout[0].width, layout[0].after;
    var a, b := Pad(xs[0], w) + after, Pad(ys[0], w) + after;
    if xs[0] < ys[0] {
      PaddedInOrder(xs[0], ys[0], w);
      BeforeAppended(Pad(xs[0], w), Pad(ys[0], w), after, after);
    } else {
      RenderedInOrder(xs[1..], ys[1..], layout[1..]);
    }
    BeforeAppended(a, b, Rendered(xs[1..], layout[1..]), Rendered(ys[1..], layout[1..]));
  }

  // ---------- the calendar ----------

  predicate Leap(year: nat) {
    year % 4 == 0 && (year % 100 != 0 || year % 400 == 0)
  }

  function YearLength(year: nat): nat {
    if Leap(year) then 366 else 365
  }

  /** The days before a year, from the beginning of year 0. */
  function YearStart(year: nat): nat {
    if year == 0 then 0 else YearStart(year - 1) + YearLength(year - 1)
  }

  function YearOf(day: nat, from: nat): (year: nat)
    requires YearStart(from) <= day
    ensures from <= year && YearStart(year) <= day < YearStart(year + 1)
    decreases day - YearStart(from)
  {
    if day < YearStart(from + 1) then from else YearOf(day, from + 1)
  }

  function MonthLength(leap: bool, month: nat): (n: nat)
    ensures 28 <= n <= 31
  {
    if month == 2 then (if leap then 29 else 28)
    else if month in {4, 6, 9, 11} then 30
    else 31
  }

  /** The days of a year before a month; month 13 stands for its end. */
  function MonthStart(leap: bool, month: nat): nat {
    if month <= 1 then 0 else MonthStart(leap, month - 1) + MonthLength(leap, month - 1)
  }

  function MonthOf(leap: bool, day: nat, from: nat): (month: nat)
    requires 1 <= from && MonthStart(leap, from) <= day
    ensures from <= month && MonthStart(leap, month) <= day < MonthStart(leap, month + 1)
    decreases day - MonthStart(leap, from)
  {
    if day < MonthStart(leap, from + 1) then from else MonthOf(leap, day, from + 1)
  }

  lemma {:induction false} YearsAscend(a: nat, b: nat)
    requires a <= b
    ensures YearStart(a) <= YearStart(b)
  {
    if a < b { YearsAscend(a, b - 1); }
  }

  lemma {:induction false} MonthsAscend(leap: bool, a: nat, b: nat)
    requires a <= b
    ensures MonthStart(leap, a) <= MonthStart(leap, b)
  {
    if a < b { MonthsAscend(leap, a, b - 1); }
  }

  /** Twelve months make a year. */
  lemma MonthsMakeYear(leap: bool)
    ensures MonthStart(leap, 13) == if leap then 366 else 365
  {
    var february := if leap then 29 else 28;
    assert MonthStart(leap, 2) == 31;
    assert MonthStart(leap, 3) == 31 + february;
    assert MonthStart(leap, 4) == 62 + february;
    assert MonthStart(leap, 5) == 92 + february;
    assert MonthStart(leap, 6) == 123 + february;
    assert MonthStart(leap, 7) == 153 + february;
    assert MonthStart(leap, 8) == 184 + february;
    assert MonthStart(leap, 9) == 215 + february;
    assert MonthStart(leap, 10) == 245 + february;
    assert MonthStart(leap, 11) == 276 + february;
    assert MonthStart(leap, 12) == 306 + february;
  }

  function Year(day: nat): nat {
    YearOf(day, 0)
  }

  function Month(day: nat): nat {
    MonthOf(Leap(Year(day)), day - YearStart(Year(day)), 1)
  }

  function DayOfMonth(day: nat): nat {
    1 + day - YearStart(Year(day)) - MonthStart(Leap(Year(day)), Month(day))
  }

  lemma DateInRange(day: nat)
    ensures 1 <= Month(day) <= 12 && 1 <= DayOfMonth(day) <= 31
  {
    var leap := Leap(Year(day));
    MonthsMakeYear(leap);
    if Month(day) >= 13 { MonthsAscend(leap, 13, Month(day)); }
  }

  lemma DatesInOrder(a: nat, b: nat)
    requires a < b
    ensures Earlier([Year(a), Month(a), DayOfMonth(a)], [Year(b), Month(b), DayOfMonth(b)])
  {
    var x, y := [Year(a), Month(a), DayOfMonth(a)], [Year(b), Month(b), DayOfMonth(b)];
    if Year(a) > Year(b) { YearsAscend(Year(b) + 1, Year(a)); }
    if Year(a) == Year(b) {
      var leap := Leap(Year(a));
      if Month(a) > Month(b) { MonthsAscend(leap, Month(b) + 1, Month(a)); }
      assert x[1..] == [Month(a), DayOfMonth(a)] && y[1..] == [Month(b), DayOfMonth(b)];
      assert x[1..][1..] == [DayOfMonth(a)] && y[1..][1..] == [DayOfMonth(b)];
    }
  }

  // ---------- names ----------

  const NANOS: nat := 1_000_000_000

  /** Nanoseconds from the beginning of year 0, up to the end of the year 9999. */
  predicate Nameable(t: nat) {
    Year(t / NANOS / 60 / 60 / 24) <= 9999
  }

  type Instant = t: nat | Nameable(t)

  const LAYOUT := [Layout(4, ""), Layout(2, ""), Layout(2, "T"), Layout(2, ""), Layout(2, ""), Layout(2, "."), Layout(9, ".json")]

  function DayFields(day: nat): seq<nat> {
    [Year(day), Month(day), DayOfMonth(day)]
  }

  function HourFields(hours: nat): seq<nat> {
    DayFields(hours / 24) + [hours % 24]
  }

  function MinuteFields(minutes: nat): seq<nat> {
    HourFields(minutes / 60) + [minutes % 60]
  }

  function SecondFields(seconds: nat): seq<nat> {
    MinuteFields(seconds / 60) + [seconds % 60]
  }

  function Fields(t: nat): seq<nat> {
    SecondFields(t / NANOS) + [t % NANOS]
  }

  function NameOf(t: Instant): string {
    Rendered(Fields(t), LAYOUT)
  }

  /** One field more: the remainder decides where the quotients are equal. */
  lemma SplitInOrder(a: nat, b: nat, base: nat)
    requires a < b && base > 0
    ensures a / base < b / base || (a / base == b / base && a % base < b % base)
  {
    var q, r := a / base, b / base;
    assert a == base * q + a % base && b == base * r + b % base;
    if r < q { Multiples(r + 1, q, base); }
  }

  lemma Multiples(x: nat, y: nat, base: nat)
    requires x <= y
    ensures base * x <= base * y
  {
  }

  lemma HoursInOrder(a: nat, b: nat)
    requires a < b
    ensures Earlier(HourFields(a), HourFields(b))
  {
    SplitInOrder(a, b, 24);
    if a / 24 < b / 24 { DatesInOrder(a / 24, b / 24); }
    EarlierAppended(DayFields(a / 24), DayFields(b / 24), a % 24, b % 24);
  }

  lemma MinutesInOrder(a: nat, b: nat)
    requires a < b
    ensures Earlier(MinuteFields(a), MinuteFields(b))
  {
    SplitInOrder(a, b, 60);
    if a / 60 < b / 60 { HoursInOrder(a / 60, b / 60); }
    EarlierAppended(HourFields(a / 60), HourFields(b / 60), a % 60, b % 60);
  }

  lemma SecondsInOrder(a: nat, b: nat)
    requires a < b
    ensures Earlier(SecondFields(a), SecondFields(b))
  {
    SplitInOrder(a, b, 60);
    if a / 60 < b / 60 { MinutesInOrder(a / 60, b / 60); }
    EarlierAppended(MinuteFields(a / 60), MinuteFields(b / 60), a % 60, b % 60);
  }

  lemma FieldsInOrder(a: nat, b: nat)
    requires a < b
    ensures Earlier(Fields(a), Fields(b))
  {
    SplitInOrder(a, b, NANOS);
    if a / NANOS < b / NANOS { SecondsInOrder(a / NANOS, b / NANOS); }
    EarlierAppended(SecondFields(a / NANOS), SecondFields(b / NANOS), a % NANOS, b % NANOS);
  }

  lemma FieldsFit(t: Instant)
    ensures Fits(Fields(t), LAYOUT)
  {
    var day := t / NANOS / 60 / 60 / 24;
    DateInRange(day);
    var values := Fields(t);
    assert values[0] == Year(day) && values[1] == Month(day) && values[2] == DayOfMonth(day);
    assert values[3] < 24 && values[4] < 60 && values[5] < 60 && values[6] < NANOS;
    assert Nameable(t);
    assert values[0] <= 9999;
    assert values[1] <= 12;
    assert values[2] <= 31;
    forall i | 0 <= i < 7 ensures values[i] < Pow10(LAYOUT[i].width) {
      Powers(LAYOUT[i].width);
      if i == 0 { assert values[i] < 10000; assert LAYOUT[i].width == 4; }
      else if i == 6 { assert values[i] < NANOS; }
      else { assert values[i] < 100; assert LAYOUT[i].width == 2; }
    }
  }

  lemma Powers(w: nat)
    requires w == 2 || w == 4 || w == 9
    ensures Pow10(w) == if w == 2 then 100 else if w == 4 then 10_000 else NANOS
  {
    assert Pow10(2) == 100;
    assert Pow10(4) == 10_000;
    assert Pow10(9) == NANOS;
  }

  /** Names sort exactly as the times they render. */
  lemma NamesInOrder(a: Instant, b: Instant)
    ensures Before(NameOf(a), NameOf(b)) <==> a < b
    ensures NameOf(a) == NameOf(b) <==> a == b
  {
    FieldsFit(a);
    FieldsFit(b);
    if a < b {
      FieldsInOrder(a, b);
      RenderedInOrder(Fields(a), Fields(b), LAYOUT);
    } else if b < a {
      FieldsInOrder(b, a);
      RenderedInOrder(Fields(b), Fields(a), LAYOUT);
    }
    BeforeIsStrict(NameOf(a), NameOf(b));
  }

  // ---------- the calendar ----------

  /** One more multiple of k is counted exactly after a multiple of k. */
  lemma CountsMultiples(x: nat, k: nat)
    requires k in {4, 100, 400}
    ensures (x + k) / k == (x + k - 1) / k + if x % k == 0 then 1 else 0
  {
  }

  /** Before a year there is a leap day for each year divisible by 4 and not by 100, or by 400. */
  lemma {:induction false} YearStartCounts(y: nat)
    ensures YearStart(y) == 365 * y + (y + 3) / 4 - (y + 99) / 100 + (y + 399) / 400
  {
    if y > 0 {
      YearStartCounts(y - 1);
      CountsMultiples(y - 1, 4);
      CountsMultiples(y - 1, 100);
      CountsMultiples(y - 1, 400);
      DividesEach(y - 1);
    }
  }

  lemma DividesEach(y: nat)
    ensures (y % 400 == 0 ==> y % 100 == 0) && (y % 100 == 0 ==> y % 4 == 0)
  {
    MultipleDivides(y, y / 400, 4, 100);
    MultipleDivides(y, y / 100, 25, 4);
  }

  lemma MultipleDivides(y: nat, q: nat, m: nat, k: nat)
    requires k == 4 || k == 100
    ensures y == k * (m * q) ==> y % k == 0
  {
  }

  const BEFORE_MONTH := [0, 31, 59, 90, 120, 151, 181, 212, 243, 273, 304, 334, 365]

  lemma {:induction false} MonthStartCounts(leap: bool, m: nat)
    requires 1 <= m <= 13
    ensures MonthStart(leap, m) == BEFORE_MONTH[m - 1] + if leap && m > 2 then 1 else 0
  {
    if m > 1 { MonthStartCounts(leap, m - 1); }
  }

  /** The date of a day, counted from the first of January of the year 0, is the only one of the Gregorian calendar that
      comes so many days after it. */
  lemma DateOfDay(day: nat, year: nat, month: nat, d: nat)
    requires 1 <= month <= 12 && d >= 1
    requires var leap := year % 4 == 0 && (year % 100 != 0 || year % 400 == 0);
             d <= [31, if leap then 29 else 28, 31, 30, 31, 30, 31, 31, 30, 31, 30, 31][month - 1]
             && day == 365 * year + (year + 3) / 4 - (year + 99) / 100 + (year + 399) / 400
                       + BEFORE_MONTH[month - 1] + (if leap && month > 2 then 1 else 0) + d - 1
    ensures Year(day) == year && Month(day) == month && DayOfMonth(day) == d
  {
    YearStartCounts(year);
    DayOfYear(Leap(year), month, d);
    YearIs(day, year);
    MonthIs(Leap(year), day - YearStart(year), month);
  }

  lemma DayOfYear(leap: bool, month: nat, d: nat)
    requires 1 <= month <= 12 && 1 <= d <= [31, if leap then 29 else 28, 31, 30, 31, 30, 31, 31, 30, 31, 30, 31][month - 1]
    ensures MonthStart(leap, month) == BEFORE_MONTH[month - 1] + if leap && month > 2 then 1 else 0
    ensures MonthStart(leap, month) + d - 1 < MonthStart(leap, month + 1) <= if leap then 366 else 365
  {
    MonthStartCounts(leap, month);
    MonthStartCounts(leap, month + 1);
  }

  lemma {:induction false} YearStartGrows(x: nat, y: nat)
    requires x <= y
    ensures YearStart(x) <= YearStart(y)
  {
    if x < y { YearStartGrows(x, y - 1); }
  }

  lemma YearIs(day: nat, year: nat)
    requires YearStart(year) <= day < YearStart(year + 1)
    ensures Year(day) == year
  {
    var y := Year(day);
    if y < year { YearStartGrows(y + 1, year); }
    if year < y { YearStartGrows(year + 1, y); }
  }

  lemma {:induction false} MonthStartGrows(leap: bool, x: nat, y: nat)
    requires x <= y
    ensures MonthStart(leap, x) <= MonthStart(leap, y)
  {
    if x < y { MonthStartGrows(leap, x, y - 1); }
  }

  lemma MonthIs(leap: bool, day: nat, month: nat)
    requires 1 <= month && MonthStart(leap, month) <= day < MonthStart(leap, month + 1)
    ensures MonthOf(leap, day, 1) == month
  {
    var m := MonthOf(leap, day, 1);
    if m < month { MonthStartGrows(leap, m + 1, month); }
    if month < m { MonthStartGrows(leap, month + 1, m); }
  }

  lemma RenderedFirst(v: nat, vs: seq<nat>, l: Layout, ls: seq<Layout>)
    requires |vs| == |ls|
    ensures Rendered([v] + vs, [l] + ls) == Pad(v, l.width) + (l.after + Rendered(vs, ls))
    ensures l.after == "" ==> Rendered([v] + vs, [l] + ls) == Pad(v, l.width) + Rendered(vs, ls)
  {
    assert ([v] + vs)[1..] == vs && ([l] + ls)[1..] == ls;
    JoinsLater(Pad(v, l.width), l.after, Rendered(vs, ls));
  }

  lemma JoinsLater(a: string, b: string, c: string)
    ensures a + b + c == a + (b + c)
    ensures b == "" ==> b + c == c
  {
  }

  function Date(year: nat, month: nat, day: nat, vs: seq<nat>): seq<nat> {
    [year] + ([month] + ([day] + vs))
  }

  function DateLayout(ls: seq<Layout>): seq<Layout> {
    [Layout(4, "")] + ([Layout(2, "")] + ([Layout(2, "T")] + ls))
  }

  function Clock(hour: nat, minute: nat, second: nat, nanos: nat): seq<nat> {
    [hour] + ([minute] + ([second] + ([nanos] + [])))
  }

  const CLOCK_LAYOUT := [Layout(2, "")] + ([Layout(2, "")] + ([Layout(2, ".")] + ([Layout(9, ".json")] + [])))

  lemma ClockIsRendered(hour: nat, minute: nat, second: nat, nanos: nat)
    ensures Rendered(Clock(hour, minute, second, nanos), CLOCK_LAYOUT)
            == Pad(hour, 2) + (Pad(minute, 2) + (Pad(second, 2) + ("." + (Pad(nanos, 9) + (".json" + "")))))
  {
    RenderedFirst(nanos, [], Layout(9, ".json"), []);
    RenderedFirst(second, [nanos] + [], Layout(2, "."), [Layout(9, ".json")] + []);
    RenderedFirst(minute, [second] + ([nanos] + []), Layout(2, ""), [Layout(2, ".")] + ([Layout(9, ".json")] + []));
    RenderedFirst(hour, [minute] + ([second] + ([nanos] + [])), Layout(2, ""),
                  [Layout(2, "")] + ([Layout(2, ".")] + ([Layout(9, ".json")] + [])));
  }

  lemma DateIsRendered(year: nat, month: nat, day: nat, vs: seq<nat>, ls: seq<Layout>)
    requires |vs| == |ls|
    ensures |Date(year, month, day, vs)| == |DateLayout(ls)|
    ensures Rendered(Date(year, month, day, vs), DateLayout(ls))
            == Pad(year, 4) + (Pad(month, 2) + (Pad(day, 2) + ("T" + Rendered(vs, ls))))
  {
    RenderedFirst(day, vs, Layout(2, "T"), ls);
    RenderedFirst(month, [day] + vs, Layout(2, ""), [Layout(2, "T")] + ls);
    RenderedFirst(year, [month] + ([day] + vs), Layout(4, ""), [Layout(2, "")] + ([Layout(2, "T")] + ls));
  }

  lemma LayoutIsBoth()
    ensures LAYOUT == DateLayout(CLOCK_LAYOUT)
  {
  }

  lemma FieldsAreBoth(t: Instant)
    ensures var seconds := t / 1_000_000_000;
            var minutes := seconds / 60;
            var day := minutes / 60 / 24;
            Fields(t) == Date(Year(day), Month(day), DayOfMonth(day),
                              Clock(minutes / 60 % 24, minutes % 60, seconds % 60, t % 1_000_000_000))
  {
  }

  /** A name has the digits of the date, a T, those of the time of day and the fraction of the second. */
  lemma NameIs(t: Instant)
    ensures var seconds := t / 1_000_000_000;
            var minutes := seconds / 60;
            var day := minutes / 60 / 24;
            NameOf(t) == Pad(Year(day), 4) + (Pad(Month(day), 2) + (Pad(DayOfMonth(day), 2) + ("T"
                         + (Pad(minutes / 60 % 24, 2) + (Pad(minutes % 60, 2) + (Pad(seconds % 60, 2) + ("."
                         + (Pad(t % 1_000_000_000, 9) + (".json" + "")))))))))
  {
    var seconds := t / 1_000_000_000;
    var minutes := seconds / 60;
    var day := minutes / 60 / 24;
    var clock := Clock(minutes / 60 % 24, minutes % 60, seconds % 60, t % 1_000_000_000);
    LayoutIsBoth();
    FieldsAreBoth(t);
    ClockIsRendered(minutes / 60 % 24, minutes % 60, seconds % 60, t % 1_000_000_000);
    DateIsRendered(Year(day), Month(day), DayOfMonth(day), clock, CLOCK_LAYOUT);
  }

  /** The number that decimal digits stand for. */
  function Read(s: string): nat {
    if s == "" then 0
    else 10 * Read(s[..|s| - 1]) + if '0' <= s[|s| - 1] <= '9' then s[|s| - 1] as int - '0' as int else 0
  }

  lemma DigitReads(d: nat)
    requires d < 10
    ensures '0' <= DIGITS[d] <= '9' && DIGITS[d] as int - '0' as int == d
  {
  }

  /** A padded number is written in digits that stand for it. */
  lemma {:induction false} PadReads(n: nat, w: nat)
    requires n < Pow10(w)
    ensures Read(Pad(n, w)) == n && forall c | c in Pad(n, w) :: '0' <= c <= '9'
    decreases w
  {
    if w > 0 {
      PadReads(n / 10, w - 1);
      DigitReads(n % 10);
      assert Pad(n, w)[..w - 1] == Pad(n / 10, w - 1);
    }
  }
}
