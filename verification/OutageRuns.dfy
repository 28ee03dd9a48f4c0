/** Runs of the outage monitor that show where its announcements may surprise. */
module OutageRuns {
  import opened Options
  import opened Units
  import opened Outages

  lemma {:induction false} CountAtMost(run: seq<Step>)
    ensures CountIn(run) <= |run|
    decreases |run|
  {
    if run != [] { CountAtMost(run[..|run|-1]); }
  }

  lemma FewReadings(outage: bool, run: seq<Step>)
    requires |run| < if outage then 2 else 3
    ensures Verdict(outage, run) == []
  {
    CountAtMost(run);
  }

  function Reading(at: int, health: Health): Step { Seen(at, Some(Running), health, false, false) }

  function Missing(at: int): Step { Seen(at, Some(Stopped), NoReading, true, false) }

  lemma ThreeUnhealthy(a: int, b: int, c: int)
    requires a < b <= a + TELEMETRY_MAX_AGE && b < c <= b + TELEMETRY_MAX_AGE && c - a >= 30 * SECOND
    ensures var run := [Reading(a, Unhealthy), Reading(b, Unhealthy), Reading(c, Unhealthy)];
      Verdict(false, run) == [Announced(ServerDown)]
  {
    var x, y, z := Reading(a, Unhealthy), Reading(b, Unhealthy), Reading(c, Unhealthy);
    SingleRun(x);
    RunAppend([x], y, Unhealthy);
    RunAppend([x, y], z, Unhealthy);
    assert [x] + [y] == [x, y] && [x, y] + [z] == [x, y, z];
  }

  lemma TwoHealthy(a: int, b: int)
    requires a + 15 * SECOND <= b <= a + TELEMETRY_MAX_AGE
    ensures Verdict(true, [Reading(a, Healthy), Reading(b, Healthy)]) == [Announced(ServerRecovered)]
  {
    var x, y := Reading(a, Healthy), Reading(b, Healthy);
    SingleRun(x);
    RunAppend([x], y, Healthy);
    assert [x] + [y] == [x, y];
    StreakHealth([x, y], Healthy, Unhealthy);
  }

  /** Three unhealthy readings of which a stop of any length separates the first from the others. */
  lemma ThreeAroundStop(a: int, stop: int)
    requires a + TELEMETRY_MAX_AGE < stop
    ensures Verdict(false, [Reading(a, Unhealthy), Missing(stop), Reading(stop + SECOND, Unhealthy)]) == []
    ensures Verdict(false, [Reading(a, Unhealthy), Missing(stop), Reading(stop + SECOND, Unhealthy),
                            Reading(stop + 2 * SECOND, Unhealthy)]) == [Announced(ServerDown)]
  {
    var w, x := Reading(a, Unhealthy), Missing(stop);
    var y, z := Reading(stop + SECOND, Unhealthy), Reading(stop + 2 * SECOND, Unhealthy);
    SingleRun(w);
    RunAppend([w], x, Unhealthy);
    RunAppend([w, x], y, Unhealthy);
    RunAppend([w, x, y], z, Unhealthy);
    assert [w] + [x] == [w, x] && [w, x] + [y] == [w, x, y] && [w, x, y] + [z] == [w, x, y, z];
  }

  /** One more reading that finds the server running, with a baseline and no pending restart. */
  method Read(m: Monitor, at: int, health: Health)
    requires m.Valid()
    requires var f := FactsIn(m.trace);
      && (f.status != Stopped || f.source == Observed) && !f.pending && f.baseline && health != NoReading
      && (f.lastAt.Some? ==> f.lastAt.value < at)
    modifies m
    ensures m.Valid()
    ensures var f, s := old(FactsIn(m.trace)), Reading(at, health);
      var verdict := Verdict(f.outage, StreakWith(f, s));
      && m.trace == old(m.trace) + [s] + verdict
      && FactsIn(m.trace) == if verdict == [] then After(f, s) else After(After(f, s), verdict[0])
  {
    hide FactsIn, LegalTrace, EventsIn, Verdict, StreakWith, StreakHolds;
    ghost var before, f, s := m.trace, FactsIn(m.trace), Reading(at, health);
    ghost var verdict := Verdict(f.outage, StreakWith(f, s));
    VerdictIsOne(f.outage, StreakWith(f, s));
    m.Observe(at, Some(Running), health, None, at);
    TraceAppend(before, s);
    if verdict == [] {
      assert before + [s] + verdict == before + [s];
    } else {
      TraceAppend(before + [s], verdict[0]);
      assert before + [s] + verdict == before + [s] + [verdict[0]];
    }
  }

  lemma VerdictIsOne(outage: bool, run: seq<Step>)
    ensures |Verdict(outage, run)| <= 1
  {
  }

  /** A reading that finds a running server stopped. */
  method FindStopped(m: Monitor, at: int)
    requires m.Valid() && FactsIn(m.trace).status != Stopped
    requires FactsIn(m.trace).lastAt.Some? ==> FactsIn(m.trace).lastAt.value < at
    modifies m
    ensures m.Valid() && m.trace == old(m.trace) + [Missing(at)]
    ensures FactsIn(m.trace) == After(old(FactsIn(m.trace)), Missing(at))
  {
    hide FactsIn, LegalTrace, EventsIn, Verdict, StreakWith, StreakHolds;
    ghost var before := m.trace;
    m.Observe(at, Some(Stopped), NoReading, None, at);
    assert before + [Missing(at)] + [] == before + [Missing(at)];
    TraceAppend(before, Missing(at));
  }

  /** The operator stops a server that is stopped already, and starts it. */
  method StopAndStart(m: Monitor)
    requires m.Valid() && FactsIn(m.trace).status == Stopped && !FactsIn(m.trace).pending
    modifies m
    ensures m.Valid() && m.trace == old(m.trace) + [Parked(true), Started]
    ensures FactsIn(m.trace) == After(After(old(FactsIn(m.trace)), Parked(true)), Started)
  {
    hide FactsIn, LegalTrace, EventsIn, Verdict, StreakWith, StreakHolds;
    ghost var before := m.trace;
    var _ := m.PersistStop();
    TraceAppend(before, Parked(true));
    m.PersistStart();
    TraceAppend(before + [Parked(true)], Started);
    assert before + [Parked(true)] + [Started] == before + [Parked(true), Started];
  }

  /** A healthy baseline at time 0. */
  method Baseline() returns (m: Monitor)
    ensures fresh(m) && m.Valid() && m.trace == [Reading(0, Healthy)]
    ensures FactsIn(m.trace) == INITIAL.(lastAt := Some(0), baseline := true)
  {
    m := new Monitor();
    NoStreak();
    m.Observe(0, Some(Running), Healthy, None, 0);
    TraceAppend([], Reading(0, Healthy));
    assert [] + [Reading(0, Healthy)] == [Reading(0, Healthy)];
  }

  function At(second: int): int { second * SECOND }

  /** An outage from time 45 on. */
  method OpenOutage() returns (m: Monitor)
    ensures fresh(m) && m.Valid() && m.trace == OutageTrace()
    ensures FactsIn(m.trace) == INITIAL.(lastAt := Some(At(45)), baseline := true, outage := true)
  {
    hide FactsIn, LegalTrace, EventsIn, Verdict, StreakHolds, CountIn;
    m := Baseline();
    var a, b, c := Reading(At(15), Unhealthy), Reading(At(30), Unhealthy), Reading(At(45), Unhealthy);
    FewReadings(false, [a]);
    Read(m, At(15), Unhealthy);
    FewReadings(false, [a, b]);
    assert [a] + [b] == [a, b] && [a, b] + [c] == [a, b, c];
    Read(m, At(30), Unhealthy);
    ThreeUnhealthy(At(15), At(30), At(45));
    Read(m, At(45), Unhealthy);
    assert m.trace == OutageTrace();
  }

  function OutageTrace(): seq<Step> {
    [Reading(0, Healthy), Reading(At(15), Unhealthy), Reading(At(30), Unhealthy), Reading(At(45), Unhealthy),
     Announced(ServerDown)]
  }

  /** The outage is still open after the server stopped, was parked, and started again. */
  method ParkedOutage() returns (m: Monitor)
    ensures fresh(m) && m.Valid() && m.trace == OutageTrace() + [Missing(At(60)), Parked(true), Started]
    ensures FactsIn(m.trace) == Facts(OtherStatus, NoSource, Some(At(60)), false, true, true, [])
  {
    hide FactsIn, LegalTrace, EventsIn, Verdict, StreakHolds, CountIn;
    m := OpenOutage();
    FindStopped(m, At(60));
    StopAndStart(m);
    var t := OutageTrace();
    assert t + [Missing(At(60))] + [Parked(true), Started] == t + [Missing(At(60)), Parked(true), Started];
  }

  /** The first announcement after an operator stop is ServerRecovered: the outage was open, and a reading
      had already found the server stopped. */
  method ParkedOutageRecovers() returns (m: Monitor)
    ensures fresh(m) && m.Valid() && m.trace == ParkedTrace() && m.events == [ServerDown, ServerRecovered]
  {
    hide FactsIn, LegalTrace, EventsIn, Verdict, StreakHolds, OutageTrace;
    m := ParkedOutage();
    var a, b := Reading(At(75), Healthy), Reading(At(90), Healthy);
    FewReadings(true, [a]);
    Read(m, At(75), Healthy);
    assert [a] + [b] == [a, b];
    TwoHealthy(At(75), At(90));
    Read(m, At(90), Healthy);
    assert m.trace == ParkedTrace();
    ParkedEvents();
  }

  function ParkedTrace(): seq<Step> {
    OutageTrace() + [Missing(At(60)), Parked(true), Started, Reading(At(75), Healthy), Reading(At(90), Healthy),
                     Announced(ServerRecovered)]
  }

  lemma {:induction false} EventsOf(a: seq<Step>, b: seq<Step>)
    requires forall s :: s in b ==> !s.Announced? && s != Parked(false)
    ensures EventsIn(a + b) == EventsIn(a)
    decreases |b|
  {
    hide EventsIn, FactsIn, LegalTrace, Verdict, After, Legal;
    if b == [] {
      assert a + b == a;
    } else {
      assert b[|b|-1] in b;
      EventsOf(a, b[..|b|-1]);
      assert a + b == (a + b[..|b|-1]) + [b[|b|-1]];
      TraceAppend(a + b[..|b|-1], b[|b|-1]);
    }
  }

  lemma ParkedEvents()
    ensures EventsIn(ParkedTrace()) == [ServerDown, ServerRecovered]
  {
    hide EventsIn, FactsIn, LegalTrace, Verdict, After, Legal, OutageTrace;
    var rest := [Missing(At(60)), Parked(true), Started, Reading(At(75), Healthy), Reading(At(90), Healthy)];
    OutageEvents();
    EventsOf(OutageTrace(), rest);
    assert EventsIn(OutageTrace() + rest) == [ServerDown];
    TraceAppend(OutageTrace() + rest, Announced(ServerRecovered));
    assert ParkedTrace() == (OutageTrace() + rest) + [Announced(ServerRecovered)];
  }

  lemma OutageEvents()
    ensures EventsIn(OutageTrace()) == [ServerDown]
  {
    hide EventsIn, FactsIn, LegalTrace, Verdict, After, Legal;
    var quiet := [Reading(0, Healthy), Reading(At(15), Unhealthy), Reading(At(30), Unhealthy),
      Reading(At(45), Unhealthy)];
    NoEvents();
    EventsOf([], quiet);
    assert [] + quiet == quiet;
    TraceAppend(quiet, Announced(ServerDown));
    assert OutageTrace() == quiet + [Announced(ServerDown)];
  }

  lemma NoEvents()
    ensures EventsIn([]) == []
  {
  }

  /** A streak that a stop after any silence has not ended. */
  method SilentStop(silence: int) returns (m: Monitor)
    requires silence > TELEMETRY_MAX_AGE
    ensures fresh(m) && m.Valid()
    ensures var a, b := Reading(At(1), Unhealthy), Missing(At(1) + silence);
      && m.trace == [Reading(0, Healthy), a, b]
      && FactsIn(m.trace) == Facts(Stopped, Observed, Some(At(1) + silence), false, true, false, [a, b])
  {
    hide FactsIn, LegalTrace, EventsIn, Verdict, StreakHolds, CountIn;
    m := Baseline();
    var a := Reading(At(1), Unhealthy);
    FewReadings(false, [a]);
    Read(m, At(1), Unhealthy);
    FindStopped(m, At(1) + silence);
    assert [a] + [Missing(At(1) + silence)] == [a, Missing(At(1) + silence)];
  }

  /** A silence of any length does not end a streak if the first reading after it finds the server stopped:
      ServerDown is announced although the readings that count are far apart. */
  method SilenceHiddenByStop(silence: int) returns (m: Monitor)
    requires silence > TELEMETRY_MAX_AGE
    ensures fresh(m) && m.Valid()
    ensures var stop := At(1) + silence;
      m.trace == [Reading(0, Healthy), Reading(At(1), Unhealthy), Missing(stop)] +
        [Reading(stop + SECOND, Unhealthy), Reading(stop + 2 * SECOND, Unhealthy), Announced(ServerDown)]
  {
    hide FactsIn, LegalTrace, EventsIn, Verdict, StreakHolds, CountIn, Unbroken, LastSeen, Evidence;
    var stop := At(1) + silence;
    m := SilentStop(silence);
    var a, b := Reading(At(1), Unhealthy), Missing(stop);
    var c, d := Reading(stop + SECOND, Unhealthy), Reading(stop + 2 * SECOND, Unhealthy);
    assert [a, b] + [c] == [a, b, c] && [a, b, c] + [d] == [a, b, c, d];
    ThreeAroundStop(At(1), stop);
    Read(m, stop + SECOND, Unhealthy);
    assert FactsIn(m.trace).run == [a, b, c] && FactsIn(m.trace).lastAt == Some(stop + SECOND);
    Read(m, stop + 2 * SECOND, Unhealthy);
  }
}
