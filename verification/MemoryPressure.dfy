/** The memory-pressure policy of one server: a restart is reserved only after sustained pressure. */
module MemoryPressure {
  import opened Options
  import opened Units

  datatype Policy = Policy(enabled: bool, thresholdPercent: real, duration: int)

  /** Memory in use and its limit, sampled at one instant. */
  datatype Sample = Sample(used: real, limit: real, at: int)

  datatype Observation = Observation(at: int, runtime: Option<int>, stopped: bool, sample: Option<Sample>)

  datatype Streak = Streak(runtime: int, since: int, lastAt: int, sampleAt: Option<int>)

  /** One observation that was presented and found under pressure. */
  datatype Pressure = Pressure(at: int, runtime: int, sampleAt: int, percent: real)

  function Percent(s: Sample): real
    requires s.limit > 0.0
  {
    s.used / s.limit * 100.0
  }

  lemma ShareIs(s: Sample, threshold: real)
    requires s.limit > 0.0
    ensures Percent(s) >= threshold <==> s.used * 100.0 >= threshold * s.limit
  {
    var share := s.used / s.limit;
    assert s.used == share * s.limit;
    assert s.used * 100.0 - threshold * s.limit == (share * 100.0 - threshold) * s.limit;
    ScaledSign(share * 100.0 - threshold, s.limit);
  }

  lemma ScaledSign(x: real, scale: real)
    requires scale > 0.0
    ensures x >= 0.0 <==> x * scale >= 0.0
  {
  }

  /** A run of observations of one runtime, all at or above the threshold, each observation newer than
      the one before and each sample no older, with gaps of at most 45 seconds in both. */
  ghost predicate Sustained(run: seq<Pressure>, threshold: real) {
    && (forall i :: 0 <= i < |run| ==> run[i].runtime == run[0].runtime && run[i].percent >= threshold)
    && forall i, j :: 0 <= i < j < |run| && j == i + 1 ==> Continues(run[i], run[j])
  }

  predicate Continues(p: Pressure, q: Pressure) {
    p.at < q.at <= p.at + TELEMETRY_MAX_AGE && p.sampleAt <= q.sampleAt <= p.sampleAt + TELEMETRY_MAX_AGE
  }

  lemma SustainedAppend(run: seq<Pressure>, p: Pressure, threshold: real)
    requires Sustained(run, threshold) && p.percent >= threshold
    requires run != [] ==> p.runtime == run[|run|-1].runtime && Continues(run[|run|-1], p)
    ensures Sustained(run + [p], threshold)
  {
  }

  /** Everything that has been presented to the policy, in order: an observation under pressure, or
      anything that ends a streak. */
  datatype Step = Under(p: Pressure) | Clear

  function Unders(run: seq<Pressure>): seq<Step> {
    seq(|run|, i requires 0 <= i < |run| => Under(run[i]))
  }

  predicate LatestRun(run: seq<Pressure>, trace: seq<Step>) {
    |run| <= |trace| && trace[|trace|-|run|..] == Unders(run)
  }

  lemma LatestAppend(run: seq<Pressure>, trace: seq<Step>, p: Pressure)
    requires LatestRun(run, trace)
    ensures LatestRun(run + [p], trace + [Under(p)])
    ensures LatestRun([p], trace + [Under(p)])
    ensures LatestRun([], trace + [Clear])
  {
    assert (trace + [Under(p)])[|trace|-|run|..] == trace[|trace|-|run|..] + [Under(p)];
  }

  /** The run reaches back as far as it can: what came before it ended a streak or does not continue
      into it. */
  predicate Maximal(run: seq<Pressure>, trace: seq<Step>) {
    |run| < |trace| ==>
      match trace[|trace|-|run|-1]
      case Clear => true
      case Under(p) => run != [] && !(p.runtime == run[0].runtime && Continues(p, run[0]))
  }

  lemma RunGoesOn(run: seq<Pressure>, trace: seq<Step>, p: Pressure, threshold: real)
    requires LatestRun(run, trace) && Maximal(run, trace) && Sustained(run, threshold) && run != []
    requires p.percent >= threshold && p.runtime == run[|run|-1].runtime && Continues(run[|run|-1], p)
    ensures LatestRun(run + [p], trace + [Under(p)]) && Maximal(run + [p], trace + [Under(p)])
    ensures Sustained(run + [p], threshold)
  {
    LatestAppend(run, trace, p);
    SustainedAppend(run, p, threshold);
    assert (run + [p])[0] == run[0];
  }

  lemma RunStarts(run: seq<Pressure>, trace: seq<Step>, p: Pressure, threshold: real)
    requires LatestRun(run, trace) && Maximal(run, trace) && p.percent >= threshold
    requires run != [] ==> !(run[|run|-1].runtime == p.runtime && Continues(run[|run|-1], p))
    ensures LatestRun([p], trace + [Under(p)]) && Maximal([p], trace + [Under(p)]) && Sustained([p], threshold)
  {
    LatestAppend(run, trace, p);
    if run != [] {
      assert trace[|trace|-|run|..][|run|-1] == Under(run[|run|-1]);
    }
  }

  lemma RunEnds(run: seq<Pressure>, trace: seq<Step>)
    requires LatestRun(run, trace)
    ensures LatestRun([], trace + [Clear]) && Maximal([], trace + [Clear])
  {
  }

  class Watch {
    const policy: Policy
    var streak: Option<Streak>
    var pending: bool
    var inactive: bool          // stopped or being deleted
    ghost var trace: seq<Step>
    ghost var run: seq<Pressure>

    ghost predicate Valid()
      reads this
    {
      && LatestRun(run, trace) && Maximal(run, trace)
      && (streak.None? ==> run == [])
      && (streak.Some? ==>
            && Sustained(run, policy.thresholdPercent)
            && run != [] && !pending && !inactive
            && run[0].at == streak.value.since
            && run[|run|-1].at == streak.value.lastAt && streak.value.sampleAt == Some(run[|run|-1].sampleAt)
            && run[|run|-1].runtime == streak.value.runtime)
    }

    constructor (policy: Policy)
      ensures Valid() && this.policy == policy && streak.None? && !pending
    {
      this.policy := policy;
      streak, pending, inactive, trace, run := None, false, false, [], [];
    }

    /** A reserved restart, a stop, a deletion or a process restart ends the streak. */
    method Interrupt(pending: bool, inactive: bool)
      requires Valid()
      modifies this
      ensures Valid() && streak.None? && this.pending == pending && this.inactive == inactive
      ensures trace == old(trace) + [Clear]
    {
      streak, this.pending, this.inactive := None, pending, inactive;
      run, trace := [], trace + [Clear];
    }

    /** Whether the observation can be judged at all and shows pressure. */
    predicate UnderPressure(o: Observation, now: int)
      reads this
    {
      && policy.enabled && !inactive && !o.stopped && !pending
      && o.runtime.Some? && o.at <= now && now - o.at <= TELEMETRY_MAX_AGE
      && o.sample.Some? && o.sample.value.limit > 0.0
      && Percent(o.sample.value) >= policy.thresholdPercent
      && (streak.Some? ==> streak.value.lastAt < o.at)
      && o.sample.value.at <= now
    }

    /** An observation counts exactly when the policy is on, the server runs with no restart pending, the reading
        is newer than the last of the streak and at most 45 seconds old, and the memory in use makes up the
        threshold percentage of the limit. */
    lemma UnderPressureIs(o: Observation, now: int)
      ensures UnderPressure(o, now) <==>
        && policy.enabled && !inactive && !pending && !o.stopped && o.runtime != None
        && 0 <= now - o.at <= 45_000_000_000 && (streak != None ==> streak.value.lastAt < o.at)
        && o.sample != None && o.sample.value.limit > 0.0 && o.sample.value.at <= now
        && o.sample.value.used * 100.0 >= policy.thresholdPercent * o.sample.value.limit
    {
      if o.sample.Some? && o.sample.value.limit > 0.0 { ShareIs(o.sample.value, policy.thresholdPercent); }
    }

    /** Presents one observation. When it asks for a restart, the run shows why: the latest unbroken
        run of presented observations was under pressure on this runtime with no restart pending, and
        the newest sample lies at least the policy's duration after the run began. */
    method Observe(o: Observation, now: int) returns (restart: bool)
      requires Valid()
      modifies this
      ensures Valid() && pending == old(pending)
      ensures !old(UnderPressure(o, now)) ==> !restart && streak.None? && trace == old(trace) + [Clear]
      ensures old(UnderPressure(o, now)) ==>
        trace == old(trace) + [Under(Pressure(o.at, o.runtime.value, o.sample.value.at, Percent(o.sample.value)))]
      ensures old(UnderPressure(o, now)) ==>
        && streak.Some? && Maximal(run, trace)
        && LatestRun(run, trace) && run != [] && Sustained(run, policy.thresholdPercent) && !pending
        && run[|run|-1] == Pressure(o.at, o.runtime.value, o.sample.value.at, Percent(o.sample.value))
        && (restart <==> run[|run|-1].sampleAt - run[0].at >= policy.duration &&
                         (|run| == 1 || run[|run|-2].sampleAt < run[|run|-1].sampleAt))
    {
      hide Percent, Sustained, Maximal, LatestRun;
      RunEnds(run, trace);
      var previous := streak;
      if !UnderPressure(o, now) {
        streak := None;
        run, trace := [], trace + [Clear];
        return false;
      }
      var sampleAt := o.sample.value.at;
      ghost var p := Pressure(o.at, o.runtime.value, sampleAt, Percent(o.sample.value));
      var s: Streak;
      if previous.None? || previous.value.runtime != o.runtime.value ||
         o.at - previous.value.lastAt > TELEMETRY_MAX_AGE || previous.value.sampleAt.None? ||
         sampleAt < previous.value.sampleAt.value || sampleAt - previous.value.sampleAt.value > TELEMETRY_MAX_AGE {
        s := Streak(o.runtime.value, o.at, o.at, None);
        RunStarts(run, trace, p, policy.thresholdPercent);
        run := [p];
      } else {
        s := previous.value;
        RunGoesOn(run, trace, p, policy.thresholdPercent);
        run := run + [p];
      }
      trace := trace + [Under(p)];
      var advanced := s.sampleAt.None? || s.sampleAt.value < sampleAt;
      s := s.(sampleAt := Some(sampleAt), lastAt := o.at);
      streak := Some(s);
      restart := advanced && sampleAt - s.since >= policy.duration;
    }
  }
}
