/** Civil time in a zone whose clocks change.

    Instants and civil times are integers of nanoseconds; civil dates are consecutive days of
    1440 minutes. A zone is a step function of offsets, in seconds east of UTC. */
module CivilTime {
  import opened Options
  import opened Units

  datatype Change = Change(at: int, offset: int)

  datatype RawZone = RawZone(initial: int, changes: seq<Change>)

  type Zone = z: RawZone | forall i, j :: 0 <= i < j < |z.changes| ==> z.changes[i].at < z.changes[j].at
    witness RawZone(0, [])

  function SegmentUpTo(z: Zone, t: int, n: nat): (k: nat)
    requires n <= |z.changes|
    requires forall i :: n <= i < |z.changes| ==> t < z.changes[i].at
    ensures k <= n
    ensures forall i :: 0 <= i < k ==> z.changes[i].at <= t
    ensures forall i :: k <= i < |z.changes| ==> t < z.changes[i].at
  {
    if n == 0 || z.changes[n-1].at <= t then n else SegmentUpTo(z, t, n - 1)
  }

  /** How many clock changes lie at or before `t`. */
  function Segment(z: Zone, t: int): (k: nat)
    ensures k <= |z.changes|
    ensures forall i :: 0 <= i < k ==> z.changes[i].at <= t
    ensures forall i :: k <= i < |z.changes| ==> t < z.changes[i].at
  {
    SegmentUpTo(z, t, |z.changes|)
  }

  function SegmentOffset(z: Zone, k: nat): int
    requires k <= |z.changes|
  {
    if k == 0 then z.initial else z.changes[k-1].offset
  }

  function Offset(z: Zone, t: int): int { SegmentOffset(z, Segment(z, t)) }

  function Local(z: Zone, t: int): int { t + Offset(z, t) * SECOND }

  /** The end of the span around `t` in which the offset stays the same. */
  function NextChange(z: Zone, t: int): Option<int> {
    var k := Segment(z, t);
    if k < |z.changes| then Some(z.changes[k].at) else None
  }

  /** What the local clock shows right after change number k. */
  function Start(z: Zone, k: nat): int
    requires 0 < k <= |z.changes|
  {
    z.changes[k-1].at + z.changes[k-1].offset * SECOND
  }

  /** No clock is set back by more than the time since the previous change. */
  predicate Tame(z: Zone) {
    forall k :: 1 <= k < |z.changes| ==> Start(z, k) <= Start(z, k + 1)
  }

  /** Offsets stay within the probed window of 72 hours. */
  predicate Bounded(z: Zone) {
    -72 * HOUR <= z.initial * SECOND <= 72 * HOUR &&
    forall k :: 0 <= k < |z.changes| ==> -72 * HOUR <= z.changes[k].offset * SECOND <= 72 * HOUR
  }

  /** `t` is the first instant at which the local clock shows `nominal`. */
  ghost predicate FirstPass(z: Zone, nominal: int, t: int) {
    Local(z, t) == nominal && forall u :: Local(z, u) == nominal ==> t <= u
  }

  lemma SegmentIs(z: Zone, t: int, k: nat)
    requires k <= |z.changes|
    requires k > 0 ==> z.changes[k-1].at <= t
    requires k < |z.changes| ==> t < z.changes[k].at
    ensures Segment(z, t) == k
  {
  }

  lemma {:induction false} StartsAscend(z: Zone, j: nat, k: nat)
    requires Tame(z) && 0 < j <= k <= |z.changes|
    ensures Start(z, j) <= Start(z, k)
    decreases k - j
  {
    if j < k { StartsAscend(z, j, k - 1); }
  }

  /** In a tame zone, if a later time is shown before an earlier one, the earlier one was already
      shown before both. */
  lemma ShownBefore(z: Zone, n: int, t: int, u: int) returns (s: int)
    requires Tame(z) && Local(z, t) == n && n < Local(z, u) && u <= t
    ensures s < t && Local(z, s) == n
  {
    var k := Segment(z, u);
    s := u - (Local(z, u) - n);
    if k > 0 {
      StartsAscend(z, k, Segment(z, t));
    }
    SegmentIs(z, s, k);
  }

  /** In a tame zone, an instant showing a later civil time lies after the first pass of an
      earlier one. */
  lemma FirstPassMonotone(z: Zone, n: int, t: int, u: int)
    requires Tame(z) && FirstPass(z, n, t) && n < Local(z, u)
    ensures t < u
  {
    if u <= t {
      var s := ShownBefore(z, n, t, u);
    }
  }

  /** Without tameness the order fails: a change back soon after a change forward shows a skipped
      minute later than a minute after it. */
  lemma UntamedOrderFails() returns (z: Zone, n: int, t: int, u: int)
    ensures Bounded(z) && FirstPass(z, n, t) && n < Local(z, u) && u < t
  {
    z := RawZone(0, [Change(0, 3600), Change(1800 * SECOND, 0)]);
    n, t, u := 1800 * SECOND, 1800 * SECOND, 0;
    SegmentIs(z, t, 2);
    SegmentIs(z, u, 1);
    forall v | Local(z, v) == n ensures t <= v {
      if v < 0 { SegmentIs(z, v, 0); } else if v < t { SegmentIs(z, v, 1); }
    }
  }

  // ---- the offset probe ----

  lemma SameSegment(z: Zone, t: int, u: int)
    requires t <= u
    requires NextChange(z, t).Some? ==> u < NextChange(z, t).value
    ensures Offset(z, u) == Offset(z, t)
  {
    SegmentIs(z, u, Segment(z, t));
  }

  lemma ChangeAdvances(z: Zone, t: int)
    requires NextChange(z, t).Some?
    ensures t < NextChange(z, t).value && Segment(z, NextChange(z, t).value) == Segment(z, t) + 1
  {
    SegmentIs(z, NextChange(z, t).value, Segment(z, t) + 1);
  }

  /** Collects every offset in force within 72 hours of `nominal`, once each, and no other. */
  method ZoneOffsetsAround(z: Zone, nominal: int) returns (offsets: seq<int>)
    ensures forall t :: nominal - 72 * HOUR <= t <= nominal + 72 * HOUR ==> Offset(z, t) in offsets
    ensures forall o <- offsets :: exists t :: nominal - 72 * HOUR <= t <= nominal + 72 * HOUR && Offset(z, t) == o
    ensures forall i, j :: 0 <= i < j < |offsets| ==> offsets[i] != offsets[j]
  {
    offsets := [];
    var start, end := nominal - 72 * HOUR, nominal + 72 * HOUR;
    var probe := start;
    while probe < end
      invariant start <= probe
      invariant forall t :: start <= t < probe ==> Offset(z, t) in offsets
      invariant forall o <- offsets :: exists t :: start <= t <= end && Offset(z, t) == o
      invariant forall i, j :: 0 <= i < j < |offsets| ==> offsets[i] != offsets[j]
      decreases |z.changes| - Segment(z, probe)
    {
      if Offset(z, probe) !in offsets { offsets := offsets + [Offset(z, probe)]; }
      var transition := NextChange(z, probe);
      forall t | probe <= t && (transition.Some? ==> t < transition.value) ensures Offset(z, t) in offsets {
        SameSegment(z, probe, t);
      }
      if transition.None? { break; }
      ChangeAdvances(z, probe);
      probe := transition.value;
    }
    if Offset(z, end) !in offsets { offsets := offsets + [Offset(z, end)]; }
  }

  /** The candidates, one for each offset, that really show `nominal`. */
  method Matches(z: Zone, nominal: int, offsets: seq<int>) returns (matches: seq<int>)
    ensures forall t :: t in matches <==> Local(z, t) == nominal && Offset(z, t) in offsets
  {
    matches := [];
    for i := 0 to |offsets|
      invariant forall t :: t in matches <==> Local(z, t) == nominal && Offset(z, t) in offsets[..i]
    {
      var candidate := nominal - offsets[i] * SECOND;
      assert offsets[..i+1] == offsets[..i] + [offsets[i]];
      if Local(z, candidate) == nominal { matches := matches + [candidate]; }
    }
    assert offsets[..|offsets|] == offsets;
  }

  /** The earliest instant whose local clock shows `nominal`; none exactly when it is skipped. */
  method EarliestUTCForCivilMinute(z: Zone, nominal: int) returns (r: Option<int>)
    requires Bounded(z)
    ensures r.Some? ==> FirstPass(z, nominal, r.value)
    ensures r.None? ==> forall t :: Local(z, t) != nominal
  {
    hide Segment, SegmentOffset;
    var offsets := ZoneOffsetsAround(z, nominal);
    var matches := Matches(z, nominal, offsets);
    forall t | Local(z, t) == nominal ensures t in matches {
      ShownNearby(z, nominal, t);
    }
    if matches == [] { return None; }
    var least := matches[0];
    for i := 1 to |matches|
      invariant least in matches && forall j :: 0 <= j < i ==> least <= matches[j]
    {
      if matches[i] < least { least := matches[i]; }
    }
    r := Some(least);
  }

  /** Whatever shows a civil time lies within 72 hours of it. */
  lemma ShownNearby(z: Zone, nominal: int, t: int)
    requires Bounded(z) && Local(z, t) == nominal
    ensures nominal - 72 * HOUR <= t <= nominal + 72 * HOUR
  {
  }

  // ---- daily schedules ----

  function Nominal(date: int, minute: int): int { date * DAY + minute * MINUTE }

  predicate DailyMinutes(daily: seq<int>) {
    daily != [] && (forall i :: 0 <= i < |daily| ==> 0 <= daily[i] < 1440) &&
    forall i, j :: 0 <= i < j < |daily| ==> daily[i] < daily[j]
  }

  ghost predicate IsDaily(daily: seq<int>, n: int) {
    exists date, i :: 0 <= i < |daily| && n == Nominal(date, daily[i])
  }

  /** `t` is the first pass of a civil time for which `wanted` holds. */
  ghost predicate Fires(z: Zone, wanted: int -> bool, t: int) {
    wanted(Local(z, t)) && FirstPass(z, Local(z, t), t)
  }

  ghost function Daily(daily: seq<int>): int -> bool { n => IsDaily(daily, n) }

  /** Between consecutive entries of the list there is no daily civil time. */
  lemma NextNominal(daily: seq<int>, date: int, i: nat, n: int)
    requires DailyMinutes(daily) && i < |daily| && IsDaily(daily, n) && n > Nominal(date, daily[i])
    ensures n >= Slot(daily, date, i + 1)
  {
    var d, j :| 0 <= j < |daily| && n == Nominal(d, daily[j]);
    if d <= date { assert d == date; }
  }

  /** Every firing after `after` shows at least the civil time `bound`. */
  ghost predicate NoneBefore(z: Zone, wanted: int -> bool, after: int, bound: int) {
    forall t :: after < t && Fires(z, wanted, t) ==> bound <= Local(z, t)
  }

  ghost predicate Least(z: Zone, wanted: int -> bool, after: int, r: int) {
    after < r && Fires(z, wanted, r) && forall t :: after < t && Fires(z, wanted, t) ==> r <= t
  }

  /** Nothing that fires after `after` shows the time `after` shows, or an earlier one. */
  lemma NoneUpToAfter(z: Zone, wanted: int -> bool, after: int)
    requires Tame(z)
    ensures NoneBefore(z, wanted, after, Local(z, after) + 1)
  {
    forall t | after < t && Fires(z, wanted, t) ensures Local(z, after) < Local(z, t) {
      if Local(z, t) < Local(z, after) { FirstPassMonotone(z, Local(z, t), t, after); }
    }
  }

  /** Once all earlier civil times are excluded, a wanted one that is shown gives the least instant. */
  lemma FoundIsLeast(z: Zone, wanted: int -> bool, after: int, nominal: int, c: int)
    requires Tame(z) && NoneBefore(z, wanted, after, nominal)
    requires wanted(nominal) && FirstPass(z, nominal, c) && after < c
    ensures Least(z, wanted, after, c)
  {
    forall t | after < t && Fires(z, wanted, t) ensures c <= t {
      if nominal < Local(z, t) { FirstPassMonotone(z, nominal, c, t); }
    }
  }

  /** A civil time that is skipped, or was first shown by `after`, can be passed over. */
  lemma PassOver(z: Zone, wanted: int -> bool, after: int, nominal: int, c: Option<int>)
    requires NoneBefore(z, wanted, after, nominal)
    requires c.Some? ==> FirstPass(z, nominal, c.value) && c.value <= after
    requires c.None? ==> forall t :: Local(z, t) != nominal
    ensures NoneBefore(z, wanted, after, nominal + 1)
  {
    forall t | after < t && Fires(z, wanted, t) ensures Local(z, t) != nominal { }
  }

  // ---- the dates the daily search visits ----

  function DateOf(z: Zone, t: int): int { Local(z, t) / DAY }

  /** How Go resolves a civil time to an instant: it tries the offset in force at the civil time read
      as UTC, and if that does not fit, the offset in force at the instant so obtained. */
  function Resolve(z: Zone, civil: int): int {
    var utc := civil - Offset(z, civil) * SECOND;
    if Segment(z, utc) == Segment(z, civil) then utc else civil - Offset(z, utc) * SECOND
  }

  /** The date reached by adding `day` days to the local time of `after`. A civil time inside a gap
      is resolved to one beside it, which may lie on another date. */
  function VisitedDate(z: Zone, after: int, day: nat): int {
    DateOf(z, Resolve(z, Local(z, after) + day * DAY))
  }

  /** Whenever the civil time is shown where it is resolved to, the date is the one expected. */
  lemma ShownTimeVisitsItsDate(z: Zone, after: int, day: nat)
    requires Local(z, Resolve(z, Local(z, after) + day * DAY)) == Local(z, after) + day * DAY
    ensures VisitedDate(z, after, day) == DateOf(z, after) + day
  {
  }

  /** Nothing on `date` fires after `after`. */
  ghost predicate NoneOn(z: Zone, wanted: int -> bool, after: int, date: int) {
    forall t :: after < t && Fires(z, wanted, t) ==> DateOf(z, t) != date
  }

  /** What the daily search finds: the least firing instant of the first visited date that has one. */
  ghost predicate Found(z: Zone, wanted: int -> bool, after: int, day: nat, r: int) {
    && after < r && Fires(z, wanted, r) && DateOf(z, r) == VisitedDate(z, after, day)
    && (forall t :: after < t && Fires(z, wanted, t) && DateOf(z, t) == DateOf(z, r) ==> r <= t)
    && forall d :: 0 <= d < day ==> NoneOn(z, wanted, after, VisitedDate(z, after, d))
  }

  /** The civil time of entry `i` on `date`, or the start of the next date when the list is used up. */
  function Slot(daily: seq<int>, date: int, i: nat): int {
    if i < |daily| then Nominal(date, daily[i]) else (date + 1) * DAY
  }

  /** Everything on `date` that fires after `after` shows at least `bound`. */
  ghost predicate OnDateFrom(z: Zone, daily: seq<int>, after: int, date: int, bound: int) {
    forall t :: after < t && Fires(z, Daily(daily), t) && DateOf(z, t) == date ==> bound <= Local(z, t)
  }

  lemma FirstSlot(z: Zone, daily: seq<int>, after: int, date: int)
    requires DailyMinutes(daily)
    ensures OnDateFrom(z, daily, after, date, Slot(daily, date, 0))
  {
    forall t | after < t && Fires(z, Daily(daily), t) && DateOf(z, t) == date
      ensures Slot(daily, date, 0) <= Local(z, t)
    {
      var d, j :| 0 <= j < |daily| && Local(z, t) == Nominal(d, daily[j]);
      assert d == date;
    }
  }

  /** A civil time that is skipped, or was first shown by `after`, can be passed over. */
  lemma NextSlot(z: Zone, daily: seq<int>, after: int, date: int, i: nat, c: Option<int>)
    requires DailyMinutes(daily) && i < |daily|
    requires OnDateFrom(z, daily, after, date, Slot(daily, date, i))
    requires c.Some? ==> FirstPass(z, Nominal(date, daily[i]), c.value) && c.value <= after
    requires c.None? ==> forall t :: Local(z, t) != Nominal(date, daily[i])
    ensures OnDateFrom(z, daily, after, date, Slot(daily, date, i + 1))
  {
    forall t | after < t && Fires(z, Daily(daily), t) && DateOf(z, t) == date
      ensures Slot(daily, date, i + 1) <= Local(z, t)
    {
      assert Local(z, t) != Nominal(date, daily[i]);
      NextNominal(daily, date, i, Local(z, t));
    }
  }

  lemma SlotFires(z: Zone, daily: seq<int>, after: int, date: int, i: nat, c: int)
    requires Tame(z) && DailyMinutes(daily) && i < |daily|
    requires OnDateFrom(z, daily, after, date, Slot(daily, date, i))
    requires FirstPass(z, Nominal(date, daily[i]), c) && after < c
    ensures Fires(z, Daily(daily), c) && DateOf(z, c) == date
    ensures forall t :: after < t && Fires(z, Daily(daily), t) && DateOf(z, t) == date ==> c <= t
  {
    assert IsDaily(daily, Nominal(date, daily[i]));
    forall t | after < t && Fires(z, Daily(daily), t) && DateOf(z, t) == date ensures c <= t {
      if Local(z, c) < Local(z, t) { FirstPassMonotone(z, Local(z, c), c, t); }
    }
  }

  ghost predicate Visited(z: Zone, after: int, days: nat, date: int) {
    exists d :: 0 <= d < days && VisitedDate(z, after, d) == date
  }

  lemma LaterDateFiresLater(z: Zone, wanted: int -> bool, t: int, u: int)
    requires Tame(z) && Fires(z, wanted, t) && DateOf(z, t) < DateOf(z, u)
    ensures t < u
  {
    FirstPassMonotone(z, Local(z, t), t, u);
  }

  lemma VisitedDatesAreSilent(z: Zone, wanted: int -> bool, after: int, day: nat, r: int, date: int)
    requires Found(z, wanted, after, day, r)
    ensures Visited(z, after, day, date) ==> NoneOn(z, wanted, after, date)
  {
  }

  lemma EarlierOnlyOnSilentDates(z: Zone, wanted: int -> bool, after: int, day: nat, r: int, t: int)
    requires Tame(z) && Found(z, wanted, after, day, r) && after < t && Fires(z, wanted, t)
    requires DateOf(z, after) <= DateOf(z, t) < DateOf(z, r) ==> NoneOn(z, wanted, after, DateOf(z, t))
    ensures r <= t
  {
    NoneUpToAfter(z, wanted, after);
    if DateOf(z, r) < DateOf(z, t) { LaterDateFiresLater(z, wanted, r, t); }
  }

  /** The search misses the least instant exactly when a date it has not visited holds an earlier one. */
  lemma LeastIffSkippedDatesAreSilent(z: Zone, wanted: int -> bool, after: int, day: nat, r: int)
    requires Tame(z) && Found(z, wanted, after, day, r)
    ensures Least(z, wanted, after, r) <==>
            forall date :: DateOf(z, after) <= date < DateOf(z, r) && !Visited(z, after, day, date) ==>
              NoneOn(z, wanted, after, date)
  {
    if Least(z, wanted, after, r) {
      forall t | after < t && Fires(z, wanted, t) ensures DateOf(z, r) <= DateOf(z, t) {
        if DateOf(z, t) < DateOf(z, r) { LaterDateFiresLater(z, wanted, t, r); }
      }
    }
    if forall date :: DateOf(z, after) <= date < DateOf(z, r) && !Visited(z, after, day, date) ==>
         NoneOn(z, wanted, after, date)
    {
      forall t | after < t && Fires(z, wanted, t) ensures r <= t {
        if DateOf(z, after) <= DateOf(z, t) < DateOf(z, r) {
          VisitedDatesAreSilent(z, wanted, after, day, r, DateOf(z, t));
        }
        EarlierOnlyOnSilentDates(z, wanted, after, day, r, t);
      }
    }
  }

  /** The dates are consecutive as far as the search goes. */
  predicate Consecutive(z: Zone, after: int, days: nat) {
    forall d :: 0 <= d < days ==> VisitedDate(z, after, d) == DateOf(z, after) + d
  }

  /** With consecutive dates the least instant is found. */
  lemma ConsecutiveDatesFindLeast(z: Zone, wanted: int -> bool, after: int, day: nat, r: int)
    requires Tame(z) && Found(z, wanted, after, day, r) && Consecutive(z, after, day + 1)
    ensures Least(z, wanted, after, r)
  {
    LeastIffSkippedDatesAreSilent(z, wanted, after, day, r);
    assert VisitedDate(z, after, day) == DateOf(z, after) + day;
    forall date | DateOf(z, after) <= date < DateOf(z, r) ensures Visited(z, after, day, date) {
      var d := date - DateOf(z, after);
      assert VisitedDate(z, after, d) == date;
    }
  }

  // ---- the condition in terms of the zone and the starting point alone ----

  const SEARCH_DAYS := 366 * 9

  /** One of the daily times is first shown on `date` after `after`. */
  ghost predicate Holds(z: Zone, daily: seq<int>, after: int, date: int) {
    exists i, t :: 0 <= i < |daily| && after < t && FirstPass(z, Nominal(date, daily[i]), t)
  }

  lemma NoneOnIffNotHolds(z: Zone, daily: seq<int>, after: int, date: int)
    requires DailyMinutes(daily)
    ensures NoneOn(z, Daily(daily), after, date) <==> !Holds(z, daily, after, date)
  {
    if i, t :| 0 <= i < |daily| && after < t && FirstPass(z, Nominal(date, daily[i]), t) {
      assert IsDaily(daily, Local(z, t));
      assert Fires(z, Daily(daily), t) && DateOf(z, t) == date;
    }
    if t :| after < t && Fires(z, Daily(daily), t) && DateOf(z, t) == date {
      var d, i :| 0 <= i < |daily| && Local(z, t) == Nominal(d, daily[i]);
      assert d == date;
    }
  }

  /** Day `d` of the search is the first whose date holds a daily time. */
  ghost predicate FirstHolding(z: Zone, daily: seq<int>, after: int, d: nat) {
    Holds(z, daily, after, VisitedDate(z, after, d)) &&
    forall e :: 0 <= e < d ==> !Holds(z, daily, after, VisitedDate(z, after, e))
  }

  /** No date that the search passes without visiting holds a daily time. */
  ghost predicate NothingSkipped(z: Zone, daily: seq<int>, after: int) {
    forall d :: 0 <= d < SEARCH_DAYS && FirstHolding(z, daily, after, d) ==>
      forall date :: DateOf(z, after) <= date < VisitedDate(z, after, d) && !Visited(z, after, d, date) ==>
        !Holds(z, daily, after, date)
  }

  lemma FoundIsFirstHolding(z: Zone, daily: seq<int>, after: int, day: nat, r: int, d: nat)
    requires DailyMinutes(daily) && Found(z, Daily(daily), after, day, r)
    ensures FirstHolding(z, daily, after, d) <==> d == day
  {
    NoneOnIffNotHolds(z, daily, after, VisitedDate(z, after, day));
    forall e: nat ensures NoneOn(z, Daily(daily), after, VisitedDate(z, after, e)) <==>
      !Holds(z, daily, after, VisitedDate(z, after, e))
    {
      NoneOnIffNotHolds(z, daily, after, VisitedDate(z, after, e));
    }
  }

  /** What the daily search finds is the least instant of all if and only if it skips nothing. */
  lemma LeastIffNothingSkipped(z: Zone, daily: seq<int>, after: int, day: nat, r: int)
    requires Tame(z) && DailyMinutes(daily) && Found(z, Daily(daily), after, day, r) && day < SEARCH_DAYS
    ensures Least(z, Daily(daily), after, r) <==> NothingSkipped(z, daily, after)
  {
    hide Holds, NoneOn, Visited, Least, FirstHolding;
    LeastIffSkippedDatesAreSilent(z, Daily(daily), after, day, r);
    forall d: nat ensures FirstHolding(z, daily, after, d) <==> d == day {
      FoundIsFirstHolding(z, daily, after, day, r, d);
    }
    forall date ensures NoneOn(z, Daily(daily), after, date) <==> !Holds(z, daily, after, date) {
      NoneOnIffNotHolds(z, daily, after, date);
    }
  }

  /** At most one clock change lies within 72 hours of the civil time. */
  predicate Calm(z: Zone, civil: int) {
    Segment(z, civil + 72 * HOUR) <= Segment(z, civil - 72 * HOUR) + 1
  }

  lemma SegmentsAscend(z: Zone, s: int, t: int)
    requires s <= t
    ensures Segment(z, s) <= Segment(z, t)
  {
    var k := Segment(z, s);
    assert k > 0 ==> z.changes[k-1].at <= t;
  }

  lemma OffsetBounded(z: Zone, t: int)
    requires Bounded(z)
    ensures -72 * HOUR <= Offset(z, t) * SECOND <= 72 * HOUR
  {
  }

  /** Near a calm civil time the clock has one of two offsets. */
  lemma NearCalm(z: Zone, civil: int, t: int)
    requires Calm(z, civil) && civil - 72 * HOUR <= t <= civil + 72 * HOUR
    ensures Segment(z, t) == Segment(z, civil - 72 * HOUR) || Segment(z, t) == Segment(z, civil - 72 * HOUR) + 1
  {
    SegmentsAscend(z, civil - 72 * HOUR, t);
    SegmentsAscend(z, t, civil + 72 * HOUR);
  }

  /** A calm civil time that is shown at all is shown where it is resolved to. */
  lemma ShownIsResolved(z: Zone, civil: int, t: int)
    requires Bounded(z) && Calm(z, civil) && Local(z, t) == civil
    ensures Local(z, Resolve(z, civil)) == civil
  {
    hide Calm;
    OffsetBounded(z, t);
    OffsetBounded(z, civil);
    var utc := civil - Offset(z, civil) * SECOND;
    OffsetBounded(z, utc);
    NearCalm(z, civil, t);
    NearCalm(z, civil, civil);
    NearCalm(z, civil, utc);
    NearCalm(z, civil, civil - Offset(z, utc) * SECOND);
    TwoOffsets(z, civil, t, Segment(z, civil - 72 * HOUR));
  }

  /** With one change between two offsets, whichever of them fits is the one found. */
  lemma TwoOffsets(z: Zone, civil: int, t: int, k: nat)
    requires k <= |z.changes| && Local(z, t) == civil
    requires var utc := civil - Offset(z, civil) * SECOND;
      forall u :: u in {t, civil, utc, civil - Offset(z, utc) * SECOND} ==> Segment(z, u) == k || Segment(z, u) == k + 1
    ensures Local(z, Resolve(z, civil)) == civil
  {
    var utc := civil - Offset(z, civil) * SECOND;
    var there := civil - Offset(z, utc) * SECOND;
    assert t in {t, civil, utc, there} && civil in {t, civil, utc, there};
    assert utc in {t, civil, utc, there} && there in {t, civil, utc, there};
  }

  /** A second change nearby can leave a shown civil time unresolved: clocks go back two hours and, an hour
      later, forward one. */
  lemma CrowdedChangesMisresolve(z: Zone)
    requires z == RawZone(-3600, [Change(30 * MINUTE, -10800), Change(90 * MINUTE, -7200)])
    ensures Tame(z) && Bounded(z) && Local(z, 2 * HOUR) == 0 && Local(z, Resolve(z, 0)) != 0
  {
    SegmentIs(z, 0, 0);
    SegmentIs(z, HOUR, 1);
    SegmentIs(z, 2 * HOUR, 2);
    SegmentIs(z, 3 * HOUR, 2);
  }

  /** A date the search steps past without visiting it is one on which the time of day of `after` is skipped,
      unless clock changes crowd around it. */
  lemma UnvisitedDateIsSkipped(z: Zone, after: int, day: nat, d: nat, t: int)
    requires Bounded(z) && Calm(z, Local(z, after) + d * DAY)
    requires d < day && !Visited(z, after, day, DateOf(z, after) + d)
    ensures Local(z, t) != Local(z, after) + d * DAY
  {
    hide Calm, Resolve, Bounded;
    if Local(z, t) == Local(z, after) + d * DAY {
      ShownIsResolved(z, Local(z, after) + d * DAY, t);
      ShownTimeVisitsItsDate(z, after, d);
    }
  }

  /** The time of day of `after` is shown on every date of the search, with no two changes near it. */
  ghost predicate NeverSkipped(z: Zone, after: int) {
    forall d :: 0 <= d < SEARCH_DAYS ==>
      Calm(z, Local(z, after) + d * DAY) && exists t :: Local(z, t) == Local(z, after) + d * DAY
  }

  lemma NeverSkippedVisitsAll(z: Zone, after: int, d: nat)
    requires Bounded(z) && NeverSkipped(z, after) && d < SEARCH_DAYS
    ensures VisitedDate(z, after, d) == DateOf(z, after) + d
  {
    var t :| Local(z, t) == Local(z, after) + d * DAY;
    ShownIsResolved(z, Local(z, after) + d * DAY, t);
    ShownTimeVisitsItsDate(z, after, d);
  }

  /** Then the daily search finds the least instant of all, whatever the daily times. */
  lemma NeverSkippedFindsLeast(z: Zone, daily: seq<int>, after: int, day: nat, r: int)
    requires Tame(z) && Bounded(z) && DailyMinutes(daily) && NeverSkipped(z, after)
    requires Found(z, Daily(daily), after, day, r) && day < SEARCH_DAYS
    ensures NothingSkipped(z, daily, after) && Least(z, Daily(daily), after, r)
  {
    hide Found, Least, NothingSkipped, NeverSkipped, VisitedDate, Daily;
    forall d | 0 <= d < day + 1 ensures VisitedDate(z, after, d) == DateOf(z, after) + d {
      NeverSkippedVisitsAll(z, after, d);
    }
    ConsecutiveDatesFindLeast(z, Daily(daily), after, day, r);
    LeastIffNothingSkipped(z, daily, after, day, r);
  }

  // Clocks that go forward one minute after midnight make the search skip a date. From half past
  // midnight the day before, the date reached is that same day again, then the day after the
  // change; the midnight between them, which is shown, is missed.
  const EXAMPLE_CHANGE := 3 * HOUR + 31 * MINUTE
  const EXAMPLE_ZONE: Zone := RawZone(-12600, [Change(EXAMPLE_CHANGE, -9000)])
  const EXAMPLE_AFTER := -DAY + 4 * HOUR
  const EXAMPLE_MISSED := 3 * HOUR + 30 * MINUTE
  const EXAMPLE_FOUND := DAY + 2 * HOUR + 30 * MINUTE

  lemma ExampleLocal(t: int)
    ensures Offset(EXAMPLE_ZONE, t) == if t < EXAMPLE_CHANGE then -12600 else -9000
    ensures Segment(EXAMPLE_ZONE, t) == if t < EXAMPLE_CHANGE then 0 else 1
  {
    SegmentIs(EXAMPLE_ZONE, t, if t < EXAMPLE_CHANGE then 0 else 1);
  }

  lemma ExampleDates()
    ensures VisitedDate(EXAMPLE_ZONE, EXAMPLE_AFTER, 0) == -1
    ensures VisitedDate(EXAMPLE_ZONE, EXAMPLE_AFTER, 1) == -1
    ensures VisitedDate(EXAMPLE_ZONE, EXAMPLE_AFTER, 2) == 1
  {
    var c := 30 * MINUTE;
    ExampleLocal(EXAMPLE_AFTER);
    ExampleLocal(c - DAY);
    ExampleLocal(c);
    ExampleLocal(4 * HOUR);
    ExampleLocal(3 * HOUR);
    ExampleLocal(c + DAY);
    ExampleLocal(DAY + 3 * HOUR);
  }

  lemma ExampleFires(t: int)
    ensures Fires(EXAMPLE_ZONE, Daily([0]), t) <==> exists d :: Local(EXAMPLE_ZONE, t) == Nominal(d, 0)
  {
    if Fires(EXAMPLE_ZONE, Daily([0]), t) {
      var d, i :| 0 <= i < |[0]| && Local(EXAMPLE_ZONE, t) == Nominal(d, [0][i]);
      assert Local(EXAMPLE_ZONE, t) == Nominal(d, 0);
    }
    if d :| Local(EXAMPLE_ZONE, t) == Nominal(d, 0) {
      assert Local(EXAMPLE_ZONE, t) == Nominal(d, [0][0]);
      ExampleLocal(t);
      forall u | Local(EXAMPLE_ZONE, u) == Local(EXAMPLE_ZONE, t) ensures t <= u { ExampleLocal(u); }
    }
  }

  lemma ExampleOnDate(t: int)
    requires EXAMPLE_AFTER < t && Fires(EXAMPLE_ZONE, Daily([0]), t)
    ensures DateOf(EXAMPLE_ZONE, t) != -1
    ensures DateOf(EXAMPLE_ZONE, t) == 1 ==> EXAMPLE_FOUND <= t
  {
    ExampleLocal(t);
    ExampleFires(t);
  }

  lemma ExampleMidnights()
    ensures Fires(EXAMPLE_ZONE, Daily([0]), EXAMPLE_MISSED)
    ensures Fires(EXAMPLE_ZONE, Daily([0]), EXAMPLE_FOUND) && DateOf(EXAMPLE_ZONE, EXAMPLE_FOUND) == 1
  {
    ExampleLocal(EXAMPLE_MISSED);
    ExampleLocal(EXAMPLE_FOUND);
    assert Local(EXAMPLE_ZONE, EXAMPLE_MISSED) == Nominal(0, 0);
    assert Local(EXAMPLE_ZONE, EXAMPLE_FOUND) == Nominal(1, 0);
    ExampleFires(EXAMPLE_MISSED);
    ExampleFires(EXAMPLE_FOUND);
  }

  lemma ExampleDayBeforeIsSilent()
    ensures NoneOn(EXAMPLE_ZONE, Daily([0]), EXAMPLE_AFTER, -1)
  {
    forall t | EXAMPLE_AFTER < t && Fires(EXAMPLE_ZONE, Daily([0]), t) ensures DateOf(EXAMPLE_ZONE, t) != -1 {
      ExampleOnDate(t);
    }
  }

  lemma ExampleFirstOnItsDate()
    ensures forall t :: EXAMPLE_AFTER < t && Fires(EXAMPLE_ZONE, Daily([0]), t) && DateOf(EXAMPLE_ZONE, t) == 1 ==>
      EXAMPLE_FOUND <= t
  {
    forall t | EXAMPLE_AFTER < t && Fires(EXAMPLE_ZONE, Daily([0]), t) && DateOf(EXAMPLE_ZONE, t) == 1
      ensures EXAMPLE_FOUND <= t
    {
      ExampleOnDate(t);
    }
  }

  /** The search may return an instant although an earlier one fires. */
  lemma SkippedDateExample()
    ensures Tame(EXAMPLE_ZONE) && Bounded(EXAMPLE_ZONE) && DailyMinutes([0])
    ensures Found(EXAMPLE_ZONE, Daily([0]), EXAMPLE_AFTER, 2, EXAMPLE_FOUND)
    ensures EXAMPLE_AFTER < EXAMPLE_MISSED < EXAMPLE_FOUND && Fires(EXAMPLE_ZONE, Daily([0]), EXAMPLE_MISSED)
  {
    hide Found, Fires, Tame, Bounded;
    ExampleZoneIsSound();
    ExampleIsFound();
    ExampleMissedFires();
  }

  lemma ExampleZoneIsSound()
    ensures Tame(EXAMPLE_ZONE) && Bounded(EXAMPLE_ZONE)
  {
  }

  lemma ExampleMissedFires()
    ensures Fires(EXAMPLE_ZONE, Daily([0]), EXAMPLE_MISSED)
  {
    ExampleMidnights();
  }

  lemma ExampleIsFound()
    ensures Found(EXAMPLE_ZONE, Daily([0]), EXAMPLE_AFTER, 2, EXAMPLE_FOUND)
  {
    hide Fires, VisitedDate, NoneOn, Local;
    ExampleDates();
    ExampleMidnights();
    ExampleDayBeforeIsSilent();
    ExampleFirstOnItsDate();
  }

  /** The least firing instant on one date. */
  method SearchDate(z: Zone, daily: seq<int>, after: int, date: int) returns (r: Option<int>)
    requires Tame(z) && Bounded(z) && DailyMinutes(daily)
    ensures r.Some? ==> after < r.value && Fires(z, Daily(daily), r.value) && DateOf(z, r.value) == date
    ensures r.Some? ==> forall t :: after < t && Fires(z, Daily(daily), t) && DateOf(z, t) == date ==> r.value <= t
    ensures r.None? ==> NoneOn(z, Daily(daily), after, date)
  {
    FirstSlot(z, daily, after, date);
    for i := 0 to |daily|
      invariant OnDateFrom(z, daily, after, date, Slot(daily, date, i))
    {
      var candidate := EarliestUTCForCivilMinute(z, Nominal(date, daily[i]));
      if candidate.Some? && after < candidate.value {
        SlotFires(z, daily, after, date, i, candidate.value);
        return candidate;
      }
      NextSlot(z, daily, after, date, i, candidate);
    }
    r := None;
  }

  lemma FirstFound(z: Zone, wanted: int -> bool, after: int, day: nat, r: int)
    requires after < r && Fires(z, wanted, r) && DateOf(z, r) == VisitedDate(z, after, day)
    requires forall t :: after < t && Fires(z, wanted, t) && DateOf(z, t) == VisitedDate(z, after, day) ==> r <= t
    requires forall d :: 0 <= d < day ==> NoneOn(z, wanted, after, VisitedDate(z, after, d))
    ensures Found(z, wanted, after, day, r)
  {
    hide Fires, VisitedDate, NoneOn;
  }

  /** Searches the visited dates in order. If none has a firing instant there is no result. */
  method NextCivilDaily(z: Zone, daily: seq<int>, after: int) returns (r: Option<int>, ghost found: nat)
    requires Tame(z) && Bounded(z) && DailyMinutes(daily)
    ensures r.Some? ==> Found(z, Daily(daily), after, found, r.value) && found < SEARCH_DAYS
    ensures r.Some? ==> (Least(z, Daily(daily), after, r.value) <==> NothingSkipped(z, daily, after))
    ensures r.None? ==> forall d :: 0 <= d < SEARCH_DAYS ==> NoneOn(z, Daily(daily), after, VisitedDate(z, after, d))
  {
    hide NothingSkipped, Least, Found, NoneOn, Fires, VisitedDate;
    found := 0;
    for day := 0 to SEARCH_DAYS
      invariant forall d :: 0 <= d < day ==> NoneOn(z, Daily(daily), after, VisitedDate(z, after, d))
    {
      var date := VisitedDate(z, after, day);
      r := SearchDate(z, daily, after, date);
      if r.Some? {
        FirstFound(z, Daily(daily), after, day, r.value);
        LeastIffNothingSkipped(z, daily, after, day, r.value);
        return r, day;
      }
    }
    r := None;
  }

  // ---- cron schedules ----

  /** What is assumed of the cron library: `next` finds the first matching civil minute after its
      argument, or reports that there is none in the following five years. */
  ghost predicate CronContract(next: int -> Option<int>, matches: int -> bool, fiveYears: int -> int) {
    (forall c :: c < fiveYears(c) - MINUTE) &&
    forall c :: match next(c)
      case Some(n) => c < n && matches(n) && forall m :: c < m < n ==> !matches(m)
      case None => forall m :: c < m <= fiveYears(c) ==> !matches(m)
  }

  /** The least first pass of a matching civil minute after `after`; none only beyond the horizon. */
  method NextCivilCron(z: Zone, next: int -> Option<int>, ghost matches: int -> bool,
                       fiveYears: int -> int, eightYears: int -> int, after: int) returns (r: Option<int>)
    requires Tame(z) && Bounded(z) && CronContract(next, matches, fiveYears)
    ensures r.Some? ==> Least(z, matches, after, r.value)
    ensures r.None? ==> NoneBefore(z, matches, after, eightYears(Local(z, after)))
  {
    var cursor := Local(z, after);
    var horizon := eightYears(cursor);
    NoneUpToAfter(z, matches, after);
    while cursor < horizon
      invariant NoneBefore(z, matches, after, cursor + 1)
    {
      var nominal := next(cursor);
      if nominal.None? {
        cursor := fiveYears(cursor) - MINUTE;
        continue;
      }
      assert NoneBefore(z, matches, after, nominal.value);
      if nominal.value > horizon { break; }
      var candidate := EarliestUTCForCivilMinute(z, nominal.value);
      if candidate.Some? && after < candidate.value {
        FoundIsLeast(z, matches, after, nominal.value, candidate.value);
        return candidate;
      }
      PassOver(z, matches, after, nominal.value, candidate);
      cursor := nominal.value;
    }
    r := None;
  }
}
