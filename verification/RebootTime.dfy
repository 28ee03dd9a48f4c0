/** The next occurrence of a reboot schedule: 64-bit interval arithmetic, the choice of mode, and
    the preview that repeats it. */
module RebootTime {
  import opened Options
  import opened SortedNats
  import opened CivilTime
  import opened Units

  const TWO64 := 0x1_0000_0000_0000_0000

  /** Two's-complement wrap-around of an int64 result. */
  function Wrap64(x: int): (w: int)
    ensures -MAX64 - 1 <= w <= MAX64
    ensures -MAX64 - 1 <= x <= MAX64 ==> w == x
  {
    (x + MAX64 + 1) % TWO64 - MAX64 - 1
  }

  /** Subtracting instants saturates at the largest duration. */
  function Saturate64(x: int): int {
    if x > MAX64 then MAX64 else if x < -MAX64 - 1 then -MAX64 - 1 else x
  }

  /** `t` is a multiple of the interval after the anchor, at least one. */
  ghost predicate Multiple(anchor: int, interval: int, t: int) {
    exists k: int :: k >= 1 && t == Nth(anchor, interval, k)
  }

  function Nth(anchor: int, interval: int, k: int): int { anchor + k * interval }

  ghost predicate LeastMultiple(anchor: int, interval: int, after: int, t: int) {
    after < t && Multiple(anchor, interval, t) &&
    forall k: int :: k >= 1 && after < Nth(anchor, interval, k) ==> t <= Nth(anchor, interval, k)
  }

  lemma NthMonotone(anchor: int, interval: int, j: int, k: int)
    requires interval > 0
    ensures j <= k <==> Nth(anchor, interval, j) <= Nth(anchor, interval, k)
  {
    assert (k - j) * interval == k * interval - j * interval;
    if j < k { assert (k - j) * interval > 0; }
    if k < j { assert (j - k) * interval > 0; }
  }

  lemma QuotientBounds(elapsed: int, interval: int)
    requires interval > 0 && elapsed >= 0
    ensures elapsed / interval >= 0
    ensures elapsed / interval * interval <= elapsed < (elapsed / interval + 1) * interval <= elapsed + interval
  {
    assert elapsed == interval * (elapsed / interval) + elapsed % interval;
    assert (elapsed / interval + 1) * interval == elapsed / interval * interval + interval;
  }

  lemma NextIsLeast(anchor: int, interval: int, after: int, k: int)
    requires interval > 0 && k >= 1
    requires k > 1 ==> Nth(anchor, interval, k - 1) <= after
    requires after < Nth(anchor, interval, k)
    ensures LeastMultiple(anchor, interval, after, Nth(anchor, interval, k))
  {
    forall j: int | j >= 1 && after < Nth(anchor, interval, j)
      ensures Nth(anchor, interval, k) <= Nth(anchor, interval, j)
    {
      if j < k { NthMonotone(anchor, interval, j, k - 1); }
      NthMonotone(anchor, interval, k, j);
    }
  }

  /** What lies past the reach of an int64 duration from the anchor. */
  function OutOfReach(anchor: int, interval: int, after: int): bool
    requires interval > 0
  {
    anchor < after && ((after - anchor) / interval + 1) * interval > MAX64
  }

  /** The interval branch: the least multiple after `after`, or an error exactly when int64
      arithmetic cannot reach it. A wrapped product is never taken for a result. */
  method NextInterval(anchor: Option<int>, interval: int, after: int) returns (r: Option<int>)
    requires HOUR <= interval <= 8760 * HOUR
    ensures r.Some? ==> anchor.Some? && LeastMultiple(anchor.value, interval, after, r.value)
    ensures r.None? <==> anchor.None? || OutOfReach(anchor.value, interval, after)
  {
    if anchor.None? { return None; }
    var a := anchor.value;
    if after <= a {
      NextIsLeast(a, interval, after, 1);
      return Some(a + Wrap64(interval));
    }
    var elapsed := Saturate64(after - a);
    QuotientBounds(elapsed, interval);
    QuotientBounds(after - a, interval);
    var cycles := Wrap64(elapsed / interval + 1);
    SmallQuotient(elapsed, interval);
    if cycles <= 0 { return None; }
    var next := a + Wrap64(cycles * interval);
    WrapDetected(cycles * interval, elapsed + interval);
    if elapsed < after - a {
      QuotientMonotone(elapsed, after - a, interval);
    }
    if next <= after || next < a { return None; }
    NextIsLeast(a, interval, after, cycles);
    r := Some(next);
  }

  lemma QuotientMonotone(x: int, y: int, interval: int)
    requires interval > 0 && 0 <= x <= y
    ensures (x / interval + 1) * interval <= (y / interval + 1) * interval
  {
    QuotientBounds(x, interval);
    QuotientBounds(y, interval);
    NthMonotone(0, interval, y / interval + 1, x / interval);
    NthMonotone(0, interval, x / interval + 1, y / interval + 1);
  }

  lemma SmallQuotient(elapsed: int, interval: int)
    requires interval >= HOUR && 0 <= elapsed <= MAX64
    ensures 1 <= elapsed / interval + 1 <= MAX64
  {
    QuotientBounds(elapsed, interval);
    ProductAtLeast(elapsed / interval, interval);
  }

  lemma {:induction false} ProductAtLeast(q: nat, interval: int)
    requires interval >= HOUR
    ensures q * interval >= q * HOUR
  {
    if q > 0 {
      ProductAtLeast(q - 1, interval);
      assert q * interval == (q - 1) * interval + interval;
    }
  }

  lemma WrapDetected(product: int, limit: int)
    requires 0 <= product <= limit <= MAX64 + 8760 * HOUR
    ensures Wrap64(product) == if product <= MAX64 then product else product - TWO64
    ensures product > MAX64 ==> Wrap64(product) < 0
  {
  }

  // ---- all modes ----

  datatype Timing =
    | IntervalTiming(interval: int)
    | DailyTiming(daily: seq<int>)
    | CronTiming(next: int -> Option<int>, matches: int -> bool, fiveYears: int -> int, eightYears: int -> int)

  ghost predicate ValidTiming(timing: Timing) {
    match timing
    case IntervalTiming(interval) => HOUR <= interval <= 8760 * HOUR
    case DailyTiming(daily) => DailyMinutes(daily)
    case CronTiming(next, matches, fiveYears, _) => CronContract(next, matches, fiveYears)
  }

  /** The instants a schedule names. */
  ghost predicate Occurs(z: Zone, timing: Timing, anchor: Option<int>, t: int) {
    match timing
    case IntervalTiming(interval) => anchor.Some? && Multiple(anchor.value, interval, t)
    case DailyTiming(daily) => Fires(z, Daily(daily), t)
    case CronTiming(_, matches, _, _) => Fires(z, matches, t)
  }

  ghost predicate LeastOccurrence(z: Zone, timing: Timing, anchor: Option<int>, after: int, r: int) {
    after < r && Occurs(z, timing, anchor, r) && forall t :: after < t && Occurs(z, timing, anchor, t) ==> r <= t
  }

  /** No daily time lies on a date the search passes without visiting. */
  ghost predicate Steady(z: Zone, timing: Timing, after: int) {
    timing.DailyTiming? ==> NothingSkipped(z, timing.daily, after)
  }

  /** Why there may be no next run: no anchor or a product past int64, or nothing within the dates or the
      years searched. */
  ghost predicate NothingInReach(z: Zone, timing: Timing, anchor: Option<int>, after: int) {
    match timing
    case IntervalTiming(interval) => interval > 0 && (anchor.None? || OutOfReach(anchor.value, interval, after))
    case DailyTiming(daily) => forall d :: 0 <= d < SEARCH_DAYS ==>
      NoneOn(z, Daily(daily), after, VisitedDate(z, after, d))
    case CronTiming(_, matches, _, eightYears) => NoneBefore(z, matches, after, eightYears(Local(z, after)))
  }

  /** The next run: always a real occurrence strictly later than `after`, and the least one exactly when the
      search skips nothing. There is none only when nothing is in reach. */
  method NextReboot(z: Zone, timing: Timing, anchor: Option<int>, after: int) returns (r: Option<int>)
    requires Tame(z) && Bounded(z) && ValidTiming(timing)
    ensures r.Some? ==> after < r.value && Occurs(z, timing, anchor, r.value)
    ensures r.Some? ==> (LeastOccurrence(z, timing, anchor, after, r.value) <==> Steady(z, timing, after))
    ensures r.None? ==> NothingInReach(z, timing, anchor, after)
  {
    hide NothingSkipped, Least, LeastOccurrence, Holds, NoneOn, NoneBefore;
    match timing
    case IntervalTiming(interval) =>
      r := NextInterval(anchor, interval, after);
      if r.Some? { LeastMultipleIsLeast(z, interval, anchor.value, after, r.value); }
    case DailyTiming(daily) =>
      ghost var found;
      r, found := NextCivilDaily(z, daily, after);
      if r.Some? { LeastFiring(z, timing, anchor, Daily(daily), after, r.value); }
    case CronTiming(next, matches, fiveYears, eightYears) =>
      r := NextCivilCron(z, next, matches, fiveYears, eightYears, after);
      if r.Some? { LeastFiring(z, timing, anchor, matches, after, r.value); }
  }

  lemma LeastFiring(z: Zone, timing: Timing, anchor: Option<int>, wanted: int -> bool, after: int, r: int)
    requires timing.DailyTiming? ==> wanted == Daily(timing.daily)
    requires timing.CronTiming? ==> wanted == timing.matches
    requires !timing.IntervalTiming?
    ensures Occurs(z, timing, anchor, r) <==> Fires(z, wanted, r)
    ensures LeastOccurrence(z, timing, anchor, after, r) <==> Least(z, wanted, after, r)
    ensures Least(z, wanted, after, r) ==> after < r && Fires(z, wanted, r)
  {
    hide Fires, Daily;
    forall t ensures Occurs(z, timing, anchor, t) <==> Fires(z, wanted, t) { }
  }

  lemma LeastMultipleIsLeast(z: Zone, interval: int, anchor: int, after: int, r: int)
    requires LeastMultiple(anchor, interval, after, r)
    ensures LeastOccurrence(z, IntervalTiming(interval), Some(anchor), after, r)
    ensures after < r && Occurs(z, IntervalTiming(interval), Some(anchor), r)
  {
    forall t | after < t && Multiple(anchor, interval, t) ensures r <= t {
      var k: int :| k >= 1 && t == Nth(anchor, interval, k);
    }
  }

  /** From some point on there is no next run. */
  ghost predicate ReachEnds(z: Zone, timing: Timing, anchor: Option<int>, after: int) {
    exists cursor :: cursor >= after && NothingInReach(z, timing, anchor, cursor)
  }

  function Previous(runs: seq<int>, i: nat, after: int): int
    requires i <= |runs|
  {
    if i == 0 then after else runs[i-1]
  }

  /** Each run is the next occurrence after the one before it. */
  ghost predicate Successive(z: Zone, timing: Timing, anchor: Option<int>, after: int, runs: seq<int>) {
    forall i :: 0 <= i < |runs| ==> Follows(z, timing, anchor, Previous(runs, i, after), runs[i])
  }

  /** `r` is an occurrence later than `previous`, and the least one exactly when the search skips nothing. */
  ghost predicate Follows(z: Zone, timing: Timing, anchor: Option<int>, previous: int, r: int) {
    && previous < r && Occurs(z, timing, anchor, r)
    && (LeastOccurrence(z, timing, anchor, previous, r) <==> Steady(z, timing, previous))
  }

  lemma OneMoreRun(z: Zone, timing: Timing, anchor: Option<int>, after: int, runs: seq<int>, r: int)
    requires Successive(z, timing, anchor, after, runs)
    requires Follows(z, timing, anchor, Previous(runs, |runs|, after), r)
    ensures Successive(z, timing, anchor, after, runs + [r])
  {
    hide Follows;
    var all := runs + [r];
    forall i | 0 <= i < |all| ensures Follows(z, timing, anchor, Previous(all, i, after), all[i]) {
      assert Previous(all, i, after) == Previous(runs, i, after);
      if i < |runs| {
        assert Follows(z, timing, anchor, Previous(runs, i, after), runs[i]);
      }
    }
  }

  /** Successive calls: the runs ascend, each is an occurrence, and no occurrence lies between one
      and the next unless the search skips one. A missing anchor is the starting point. */
  method RebootPreview(z: Zone, timing: Timing, anchor: Option<int>, after: int, count: int)
    returns (r: Option<seq<int>>)
    requires Tame(z) && Bounded(z) && ValidTiming(timing)
    ensures r.Some? ==> 1 <= |r.value| == count <= 5
    ensures r.Some? ==> Successive(z, timing, Some(if anchor.Some? then anchor.value else after), after, r.value)
    ensures r.None? && 1 <= count <= 5 ==>
      ReachEnds(z, timing, Some(if anchor.Some? then anchor.value else after), after)
  {
    hide Successive, Occurs, Steady, LeastOccurrence, NothingInReach, Tame, Bounded, ValidTiming;
    if count < 1 || count > 5 { return None; }
    var start := Some(if anchor.Some? then anchor.value else after);
    var runs: seq<int>, cursor := [], after;
    NoRuns(z, timing, start, after);
    while |runs| < count
      invariant |runs| <= count && cursor == Previous(runs, |runs|, after) && after <= cursor
      invariant Successive(z, timing, start, after, runs)
    {
      var next := NextReboot(z, timing, start, cursor);
      if next.None? {
        assert cursor >= after && NothingInReach(z, timing, start, cursor);
        return None;
      }
      OneMoreRun(z, timing, start, after, runs, next.value);
      runs := runs + [next.value];
      cursor := next.value;
    }
    r := Some(runs);
  }

  lemma {:induction false} RunsAscend(z: Zone, timing: Timing, anchor: Option<int>, after: int, runs: seq<int>, i: nat,
      j: nat)
    requires Successive(z, timing, anchor, after, runs) && i < j < |runs|
    ensures runs[i] < runs[j]
    decreases j
  {
    hide Occurs, Steady, LeastOccurrence;
    assert Follows(z, timing, anchor, Previous(runs, j, after), runs[j]);
    if i < j - 1 { RunsAscend(z, timing, anchor, after, runs, i, j - 1); }
  }

  /** Over successive runs no civil minute comes up twice, however often the clock shows it. */
  lemma NoMinuteTwice(z: Zone, timing: Timing, anchor: Option<int>, after: int, runs: seq<int>, i: nat, j: nat)
    requires Successive(z, timing, anchor, after, runs) && !timing.IntervalTiming? && i < j < |runs|
    ensures Local(z, runs[i]) != Local(z, runs[j])
  {
    hide Steady, LeastOccurrence;
    RunsAscend(z, timing, anchor, after, runs, i, j);
    assert Follows(z, timing, anchor, Previous(runs, i, after), runs[i]);
    assert Follows(z, timing, anchor, Previous(runs, j, after), runs[j]);
  }

  lemma NoRuns(z: Zone, timing: Timing, anchor: Option<int>, after: int)
    ensures Successive(z, timing, anchor, after, [])
  {
  }

  // ---- reading the definition ----

  /** Hours up to 8760, days up to 365. */
  function ParseInterval(value: int, unit: string): (r: Option<int>)
    ensures r.Some? ==> ValidTiming(IntervalTiming(r.value))
  {
    if unit != "hours" && unit != "days" then None
    else if value < 1 || (unit == "hours" && value > 8760) || (unit == "days" && value > 365) then None
    else Some(value * (if unit == "days" then 24 * HOUR else HOUR))
  }

  predicate DigitBelow(c: char, limit: char) { '0' <= c <= limit }

  function Digit(c: char): nat
    requires DigitBelow(c, '9')
  {
    c as int - '0' as int
  }

  function DigitChar(d: nat): char
    requires d < 10
  {
    (d + '0' as int) as char
  }

  /** Reads `HH:mm`. */
  function ParseMinute(raw: string): Option<nat> {
    if |raw| != 5 || raw[2] != ':' || !DigitBelow(raw[0], '2') || !DigitBelow(raw[1], '9') ||
       !DigitBelow(raw[3], '5') || !DigitBelow(raw[4], '9') then None
    else
      var hour, minute := Digit(raw[0]) * 10 + Digit(raw[1]), Digit(raw[3]) * 10 + Digit(raw[4]);
      if hour > 23 then None else Some(hour * 60 + minute)
  }

  /** Writes `%02d:%02d`, the form a saved schedule keeps. */
  function PrintMinute(minute: nat): string
    requires minute < 1440
  {
    var h, m := minute / 60, minute % 60;
    [DigitChar(h / 10), DigitChar(h % 10), ':', DigitChar(m / 10), DigitChar(m % 10)]
  }

  lemma PrintThenParse(minute: nat)
    requires minute < 1440
    ensures ParseMinute(PrintMinute(minute)) == Some(minute)
  {
    var h, m := minute / 60, minute % 60;
    assert h == h / 10 * 10 + h % 10 && m == m / 10 * 10 + m % 10;
  }

  lemma ParseThenPrint(raw: string)
    requires ParseMinute(raw).Some?
    ensures ParseMinute(raw).value < 1440 && PrintMinute(ParseMinute(raw).value) == raw
  {
    var h, m := Digit(raw[0]) * 10 + Digit(raw[1]), Digit(raw[3]) * 10 + Digit(raw[4]);
    assert (h * 60 + m) / 60 == h && (h * 60 + m) % 60 == m;
    assert h / 10 == Digit(raw[0]) && h % 10 == Digit(raw[1]);
    assert m / 10 == Digit(raw[3]) && m % 10 == Digit(raw[4]);
  }

  /** The daily times, sorted and without repetition; an error on the first one that does not parse. */
  method ParseDaily(raws: seq<string>) returns (r: Option<seq<nat>>)
    ensures r.Some? <==> 1 <= |raws| <= 1440 && forall raw <- raws :: ParseMinute(raw).Some?
    ensures r.Some? ==> DailyMinutes(r.value)
    ensures r.Some? ==> forall m: nat :: m in r.value <==> exists raw <- raws :: ParseMinute(raw) == Some(m)
  {
    if |raws| == 0 || |raws| > 1440 { return None; }
    var minutes: seq<nat> := [];
    for i := 0 to |raws|
      invariant |minutes| == i
      invariant forall j :: 0 <= j < i ==> ParseMinute(raws[j]) == Some(minutes[j])
    {
      var minute := ParseMinute(raws[i]);
      if minute.None? { return None; }
      minutes := minutes + [minute.value];
    }
    var sorted := SortUnique(minutes);
    assert forall m :: m in sorted <==> m in minutes by {
      assert forall m :: m in sorted <==> m in Elements(sorted);
    }
    forall i | 0 <= i < |sorted| ensures sorted[i] < 1440 {
      assert sorted[i] in minutes;
      var j :| 0 <= j < |minutes| && minutes[j] == sorted[i];
      ParseThenPrint(raws[j]);
    }
    assert minutes[0] in sorted;
    r := Some(sorted);
  }
}
