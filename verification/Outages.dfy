/** Outage debouncing for one server: when ServerDown and ServerRecovered are announced.

    A trace holds everything that happened to the monitor, its announcements included. The whole state of
    the monitor is a function of that trace, so what holds of every lawful trace holds over every run. */
module Outages {
  import opened Options
  import opened Units

  datatype Health = Healthy | Unhealthy | NoReading
  datatype Status = Running | Stopped | OtherStatus | UnknownStatus
  datatype StopSource = NoSource | Operator | Observed

  datatype Event = ServerDown | ServerRecovered | ServerStopped

  /** What has happened, in order. A reading is seen only if it is newer than the last and fresh; it may
      find the server stopped, or a restart pending. */
  datatype Step =
    | Seen(at: int, observed: Option<Status>, health: Health, stopped: bool, pending: bool)
    | Parked(already: bool)     // an operator stop; `already` when the server was stopped before
    | Started
    | Reserved                  // a restart was reserved
    | RestartEnded(completed: bool)
    | ProcessRestarted
    | Announced(event: Event)

  /** A reading that counts towards a streak. */
  predicate Counted(s: Step) { s.Seen? && !s.stopped && !s.pending }

  // ---- streaks ----

  function LastSeen(run: seq<Step>): Option<int> {
    if run == [] then None
    else if run[|run|-1].Seen? then Some(run[|run|-1].at)
    else LastSeen(run[..|run|-1])
  }

  function CountIn(run: seq<Step>): nat {
    if run == [] then 0 else CountIn(run[..|run|-1]) + if Counted(run[|run|-1]) then 1 else 0
  }

  predicate Follows(run: seq<Step>, at: int, stopped: bool) {
    LastSeen(run).Some? ==>
      LastSeen(run).value < at && (!stopped ==> at - LastSeen(run).value <= TELEMETRY_MAX_AGE)
  }

  /** The step does not interrupt a streak of `health` that `run` is the beginning of. */
  predicate Continues(run: seq<Step>, s: Step, health: Health) {
    match s
    case Seen(at, _, h, stopped, pending) => !pending && (stopped || h == health) && Follows(run, at, stopped)
    case Parked(already) => already
    case Started => true
    case _ => false
  }

  /** Nothing in the run interrupts a streak of `health`: every reading that counts shows it and comes
      within 45 seconds of the reading before it; between them the server was at most found stopped
      (at any distance), parked when already stopped, or started. */
  predicate Unbroken(run: seq<Step>, health: Health) {
    run == [] || (Unbroken(run[..|run|-1], health) && Continues(run[..|run|-1], run[|run|-1], health))
  }

  /** The evidence behind an announcement: at least `count` readings of `health` over at least `span`. */
  predicate Evidence(run: seq<Step>, health: Health, count: nat, span: int) {
    && run != [] && Unbroken(run, health) && Counted(run[0]) && CountIn(run) >= count
    && LastSeen(run).Some? && LastSeen(run).value - run[0].at >= span
  }

  /** What a streak is evidence for: the beginning of an outage, its end, or nothing yet. */
  function Verdict(outage: bool, run: seq<Step>): seq<Step> {
    if !outage && Evidence(run, Unhealthy, 3, 30 * SECOND) then [Announced(ServerDown)]
    else if outage && Evidence(run, Healthy, 2, 15 * SECOND) then [Announced(ServerRecovered)]
    else []
  }

  lemma RunAppend(run: seq<Step>, s: Step, health: Health)
    ensures Unbroken(run + [s], health) <==> Unbroken(run, health) && Continues(run, s, health)
    ensures LastSeen(run + [s]) == if s.Seen? then Some(s.at) else LastSeen(run)
    ensures CountIn(run + [s]) == CountIn(run) + if Counted(s) then 1 else 0
  {
    assert (run + [s])[..|run + [s]|-1] == run;
  }

  lemma EmptyRun(health: Health)
    ensures Unbroken([], health) && CountIn([]) == 0 && LastSeen([]) == None
  {
  }

  lemma SingleRun(s: Step)
    requires Counted(s)
    ensures Unbroken([s], s.health) && CountIn([s]) == 1 && LastSeen([s]) == Some(s.at)
  {
    EmptyRun(s.health);
    RunAppend([], s, s.health);
    assert [] + [s] == [s];
  }

  lemma {:induction false} CountedShow(run: seq<Step>, health: Health, i: nat)
    requires Unbroken(run, health) && i < |run| && Counted(run[i])
    ensures run[i].health == health
    decreases |run|
  {
    if i < |run| - 1 {
      CountedShow(run[..|run|-1], health, i);
    }
  }

  /** A streak is unbroken for one health only. */
  lemma StreakHealth(run: seq<Step>, health: Health, other: Health)
    requires run != [] && Counted(run[0]) && Unbroken(run, health)
    ensures Unbroken(run, other) <==> other == health
  {
    if Unbroken(run, other) {
      CountedShow(run, health, 0);
      CountedShow(run, other, 0);
    }
  }

  lemma {:induction false} LastSeenIs(run: seq<Step>, i: nat)
    requires i < |run| && run[i].Seen? && forall k :: i < k < |run| ==> !run[k].Seen?
    ensures LastSeen(run) == Some(run[i].at)
    decreases |run|
  {
    if i < |run| - 1 { LastSeenIs(run[..|run|-1], i); }
  }

  /** Two readings of an unbroken run with none between are at most 45 seconds apart, unless the later one
      found the server stopped. */
  lemma {:induction false} NeighboursWithinMaxAge(run: seq<Step>, health: Health, i: nat, j: nat)
    requires Unbroken(run, health) && i < j < |run| && run[i].Seen? && run[j].Seen?
    requires forall k :: i < k < j ==> !run[k].Seen?
    ensures run[i].at < run[j].at
    ensures !run[j].stopped ==> run[j].at - run[i].at <= TELEMETRY_MAX_AGE
    decreases |run|
  {
    var init := run[..|run|-1];
    if j < |run| - 1 {
      NeighboursWithinMaxAge(init, health, i, j);
    } else {
      LastSeenIs(init, i);
    }
  }

  // ---- the state after a trace ----

  /** What the stored state says: where the server is, the newest reading since the process started, whether
      a restart is pending, whether there is a healthy baseline, whether an outage is open, and the running
      streak. */
  datatype Facts = Facts(status: Status, source: StopSource, lastAt: Option<int>, pending: bool, baseline: bool,
                         outage: bool, run: seq<Step>)

  const INITIAL := Facts(Running, NoSource, None, false, false, false, [])

  /** An observed stop stops a server, and an observed start ends an observed stop; nothing else does. */
  function PlaceAfter(status: Status, source: StopSource, observed: Option<Status>): (Status, StopSource) {
    if observed.None? || observed == Some(UnknownStatus) then (status, source)
    else if observed == Some(Stopped) then (Stopped, if status == Stopped then source else Observed)
    else if status == Stopped && source == Observed then (observed.value, NoSource)
    else (status, source)
  }

  /** Where the server then is, case by case. */
  lemma PlaceIs(status: Status, source: StopSource, observed: Option<Status>)
    ensures var (there, why) := PlaceAfter(status, source, observed);
      && (there == Stopped <==>
            || observed == Some(Stopped)
            || (status == Stopped && (source != Observed || observed.None? || observed == Some(UnknownStatus))))
      && (status == Stopped && source != Observed ==> (there, why) == (status, source))
      && (status != Stopped && observed == Some(Stopped) ==> why == Observed)
      && (status != Stopped && observed != Some(Stopped) ==> (there, why) == (status, source))
      && (status == Stopped && there != Stopped ==> observed == Some(there) && why == NoSource)
  {
  }

  /** A running streak takes the step in; there is none to take it in otherwise. */
  function Extended(run: seq<Step>, s: Step): seq<Step> { if run == [] then [] else run + [s] }

  /** The streak after a reading that counts: it goes on only with the same health, within 45 seconds. */
  function StreakWith(f: Facts, s: Step): seq<Step>
    requires s.Seen?
  {
    if f.run != [] && f.run[0].Seen? && f.run[0].health == s.health && f.lastAt.Some? &&
       s.at - f.lastAt.value <= TELEMETRY_MAX_AGE
    then f.run + [s] else [s]
  }

  function After(f: Facts, s: Step): Facts {
    match s
    case Seen(at, observed, health, stopped, pending) =>
      var (status, source) := PlaceAfter(f.status, f.source, observed);
      var g := f.(status := status, source := source, lastAt := Some(at));
      if stopped then g.(run := Extended(f.run, s))
      else if pending || health == NoReading then g.(run := [])
      else if !f.baseline then g.(baseline := health == Healthy, run := [])
      else g.(run := StreakWith(f, s))
    case Parked(already) =>
      if already then f.(source := Operator, run := Extended(f.run, s))
      else f.(status := Stopped, source := Operator, baseline := false, outage := false, run := [])
    case Started =>
      var g := f.(run := Extended(f.run, s));
      if f.status == Stopped then g.(status := OtherStatus, source := NoSource) else g
    case Reserved => f.(status := OtherStatus, source := NoSource, pending := true, run := [])
    case RestartEnded(completed) =>
      f.(status := OtherStatus, source := if completed then NoSource else f.source, pending := false,
         baseline := f.baseline || completed, run := [])
    case ProcessRestarted => f.(lastAt := None, run := [])
    case Announced(event) => f.(outage := event == ServerDown, run := [])
  }

  function FactsIn(trace: seq<Step>): Facts {
    if trace == [] then INITIAL else After(FactsIn(trace[..|trace|-1]), trace[|trace|-1])
  }

  /** Which step may come next: the flags say what the state says, and only evidence is announced. */
  predicate Legal(f: Facts, s: Step) {
    match s
    case Seen(at, observed, _, stopped, pending) =>
      && !(f.status == Stopped && f.source != Observed) && (f.lastAt.Some? ==> f.lastAt.value < at)
      && stopped == (PlaceAfter(f.status, f.source, observed).0 == Stopped) && pending == (!stopped && f.pending)
    case Parked(already) => !f.pending && already == (f.status == Stopped)
    case Started => true
    case Reserved => !f.pending
    case RestartEnded(_) => f.pending
    case ProcessRestarted => true
    case Announced(_) => Verdict(f.outage, f.run) == [s]
  }

  predicate LegalTrace(trace: seq<Step>) {
    trace == [] || (LegalTrace(trace[..|trace|-1]) && Legal(FactsIn(trace[..|trace|-1]), trace[|trace|-1]))
  }

  /** The announcements of a trace; an operator stop of a running server announces itself. */
  function EventsIn(trace: seq<Step>): seq<Event> {
    if trace == [] then []
    else
      var before := EventsIn(trace[..|trace|-1]);
      match trace[|trace|-1]
      case Parked(already) => if already then before else before + [ServerStopped]
      case Announced(event) => before + [event]
      case _ => before
  }

  lemma TraceAppend(trace: seq<Step>, s: Step)
    ensures FactsIn(trace + [s]) == After(FactsIn(trace), s)
    ensures LegalTrace(trace + [s]) <==> LegalTrace(trace) && Legal(FactsIn(trace), s)
    ensures EventsIn(trace + [s]) == EventsIn(trace) +
      match s case Parked(already) => (if already then [] else [ServerStopped]) case Announced(e) => [e] case _ => []
  {
    assert (trace + [s])[..|trace + [s]|-1] == trace;
  }

  lemma {:induction false} PrefixIsLegal(trace: seq<Step>, n: nat)
    requires LegalTrace(trace) && n <= |trace|
    ensures LegalTrace(trace[..n])
    ensures n < |trace| ==> Legal(FactsIn(trace[..n]), trace[n])
    decreases |trace|
  {
    if n < |trace| {
      assert trace[..|trace|-1][..n] == trace[..n];
      if n < |trace| - 1 { PrefixIsLegal(trace[..|trace|-1], n); }
    } else {
      assert trace[..n] == trace;
    }
  }

  /** The running streak is unbroken, ends with the newest reading, and runs only with a baseline and
      without a pending restart. */
  predicate StreakHolds(f: Facts) {
    f.run == [] ||
    (Counted(f.run[0]) && f.run[0].health != NoReading && Unbroken(f.run, f.run[0].health) &&
     f.lastAt.Some? && LastSeen(f.run) == f.lastAt && f.baseline && !f.pending)
  }

  lemma StreakKept(f: Facts, s: Step)
    requires StreakHolds(f) && Legal(f, s)
    ensures StreakHolds(After(f, s))
  {
    hide Unbroken, LastSeen, CountIn, Verdict;
    if s.Seen? && Counted(s) { SingleRun(s); }
    if f.run != [] {
      RunAppend(f.run, s, f.run[0].health);
      assert (f.run + [s])[0] == f.run[0];
    }
  }

  predicate Suffix(run: seq<Step>, trace: seq<Step>) {
    |run| <= |trace| && trace[|trace|-|run|..] == run
  }

  /** A step ends the streak, begins one, or is taken in. */
  lemma StreakAfter(f: Facts, s: Step)
    ensures var run := After(f, s).run; run == [] || run == [s] || run == f.run + [s]
  {
    hide Verdict;
  }

  lemma SuffixAfter(run: seq<Step>, trace: seq<Step>, s: Step)
    requires Suffix(run, trace)
    ensures Suffix(run + [s], trace + [s]) && Suffix([s], trace + [s]) && Suffix([], trace + [s])
  {
    assert (trace + [s])[|trace|-|run|..] == trace[|trace|-|run|..] + [s];
  }

  lemma {:induction false} StreakIsLatest(trace: seq<Step>)
    requires LegalTrace(trace)
    ensures StreakHolds(FactsIn(trace)) && Suffix(FactsIn(trace).run, trace)
    decreases |trace|
  {
    hide StreakHolds, After, Legal, Suffix;
    if trace == [] {
      NoStreak();
    } else {
      var init, s := trace[..|trace|-1], trace[|trace|-1];
      StreakIsLatest(init);
      StreakKept(FactsIn(init), s);
      StreakAfter(FactsIn(init), s);
      assert trace == init + [s];
      SuffixAfter(FactsIn(init).run, init, s);
    }
  }

  lemma NoStreak()
    ensures StreakHolds(INITIAL) && FactsIn([]) == INITIAL && Suffix(INITIAL.run, [])
  {
  }

  // ---- what holds over every run ----

  /** A running streak survives a reading more than 45 seconds after the one before it, at any distance, if
      and only if that reading finds the server stopped. */
  lemma SilenceBreaksUnlessStopped(trace: seq<Step>, s: Step)
    requires LegalTrace(trace + [s]) && s.Seen? && FactsIn(trace).run != []
    requires FactsIn(trace).lastAt.Some? && s.at - FactsIn(trace).lastAt.value > TELEMETRY_MAX_AGE
    ensures FactsIn(trace + [s]).run == FactsIn(trace).run + [s] <==> s.stopped
    ensures s.stopped ==> LastSeen(FactsIn(trace + [s]).run) == Some(s.at)
    ensures !s.stopped ==> FactsIn(trace + [s]).run == [] || FactsIn(trace + [s]).run == [s]
  {
    hide FactsIn, LegalTrace, LastSeen, Unbroken, Verdict;
    TraceAppend(trace, s);
    RunAppend(FactsIn(trace).run, s, Healthy);
    assert |FactsIn(trace).run + [s]| > 1;
  }

  /** A step that shows the server healthy: a healthy reading while it runs and no restart is pending, or a
      completed restart. */
  predicate ShowsHealthy(s: Step) {
    (s.Seen? && s.health == Healthy && !s.stopped && !s.pending) || s == RestartEnded(true)
  }

  /** At `n` the server has shown itself healthy since the last effective operator stop. */
  ghost predicate HealthyBefore(trace: seq<Step>, n: nat) {
    exists j :: 0 <= j < n <= |trace| && ShowsHealthy(trace[j]) && forall m :: j < m < n ==> trace[m] != Parked(false)
  }

  /** No reading stands for a healthy baseline but a healthy one, and none is forgotten but by a stop. */
  lemma {:induction false} BaselineIffHealthy(trace: seq<Step>, n: nat)
    requires LegalTrace(trace) && n <= |trace|
    ensures FactsIn(trace[..n]).baseline <==> HealthyBefore(trace, n)
    decreases n
  {
    hide FactsIn, LegalTrace, HealthyBefore, After, Legal, ShowsHealthy, EventsIn, StreakHolds, Suffix, Unbroken;
    if n == 0 {
      NoneHealthyYet(trace);
      assert trace[..0] == [];
    } else {
      BaselineIffHealthy(trace, n - 1);
      PrefixIsLegal(trace, n - 1);
      assert trace[..n] == trace[..n-1] + [trace[n-1]];
      TraceAppend(trace[..n-1], trace[n-1]);
      BaselineAfter(FactsIn(trace[..n-1]), trace[n-1]);
      HealthyStep(trace, n);
    }
  }

  lemma NoneHealthyYet(trace: seq<Step>)
    ensures !HealthyBefore(trace, 0) && !FactsIn([]).baseline
  {
  }

  lemma BaselineAfter(f: Facts, s: Step)
    requires Legal(f, s)
    ensures After(f, s).baseline <==> ShowsHealthy(s) || (f.baseline && s != Parked(false))
  {
    hide Verdict, StreakWith, PlaceAfter;
  }

  lemma HealthyStep(trace: seq<Step>, n: nat)
    requires 0 < n <= |trace|
    ensures HealthyBefore(trace, n) <==>
      ShowsHealthy(trace[n-1]) || (HealthyBefore(trace, n - 1) && trace[n-1] != Parked(false))
  {
    if !ShowsHealthy(trace[n-1]) && HealthyBefore(trace, n - 1) && trace[n-1] != Parked(false) {
      var j :| 0 <= j < n - 1 && ShowsHealthy(trace[j]) && forall m :: j < m < n - 1 ==> trace[m] != Parked(false);
      assert forall m :: j < m < n ==> trace[m] != Parked(false);
    }
  }

  lemma {:induction false} NoHealthIn(run: seq<Step>, i: nat)
    requires Unbroken(run, Unhealthy) && i < |run|
    ensures !ShowsHealthy(run[i])
    decreases |run|
  {
    if i < |run| - 1 { NoHealthIn(run[..|run|-1], i); }
  }

  /** Every ServerDown follows a sign of health with no effective operator stop since, and after it an unbroken
      run of at least three unhealthy readings over at least 30 seconds, the latest of the trace, with no
      restart pending and no outage open. */
  lemma DownIsJustified(trace: seq<Step>, k: nat) returns (j: nat, n: nat)
    requires LegalTrace(trace) && k < |trace| && trace[k] == Announced(ServerDown)
    ensures j < n < k && ShowsHealthy(trace[j]) && forall m :: j < m < k ==> trace[m] != Parked(false)
    ensures Evidence(trace[n..k], Unhealthy, 3, 30 * SECOND)
    ensures var f := FactsIn(trace[..k]); !f.pending && !f.outage
  {
    hide FactsIn, LegalTrace, Unbroken, CountIn, LastSeen, ShowsHealthy;
    PrefixIsLegal(trace, k);
    StreakIsLatest(trace[..k]);
    n := k - |FactsIn(trace[..k]).run|;
    assert trace[..k][n..] == trace[n..k];
    BaselineIffHealthy(trace, k);
    j :| 0 <= j < k && ShowsHealthy(trace[j]) && forall m :: j < m < k ==> trace[m] != Parked(false);
    HealthPrecedes(trace, j, n, k);
  }

  lemma HealthPrecedes(trace: seq<Step>, j: nat, n: nat, k: nat)
    requires j < k && n <= k <= |trace| && Unbroken(trace[n..k], Unhealthy) && ShowsHealthy(trace[j])
    ensures j < n
  {
    if j >= n { NoHealthIn(trace[n..k], j - n); }
  }

  /** Every ServerRecovered ends an open outage after at least two healthy readings over 15 seconds. */
  lemma RecoveryIsJustified(trace: seq<Step>, k: nat) returns (n: nat)
    requires LegalTrace(trace) && k < |trace| && trace[k] == Announced(ServerRecovered)
    ensures n < k && Evidence(trace[n..k], Healthy, 2, 15 * SECOND)
    ensures var f := FactsIn(trace[..k]); !f.pending && f.outage
  {
    PrefixIsLegal(trace, k);
    StreakIsLatest(trace[..k]);
    n := k - |FactsIn(trace[..k]).run|;
    assert trace[..k][n..] == trace[n..k];
  }

  /** A step that opens or closes an outage. */
  predicate Switches(s: Step) { s.Announced? || s == Parked(false) }

  lemma {:induction false} OutageStays(trace: seq<Step>, i: nat, j: nat)
    requires i <= j <= |trace| && forall k :: i <= k < j ==> !Switches(trace[k])
    ensures FactsIn(trace[..j]).outage == FactsIn(trace[..i]).outage
    decreases j - i
  {
    hide FactsIn, LegalTrace, Verdict, StreakWith;
    if i < j {
      OutageStays(trace, i, j - 1);
      assert trace[..j] == trace[..j-1] + [trace[j-1]];
      TraceAppend(trace[..j-1], trace[j-1]);
    }
  }

  lemma OutageFollows(trace: seq<Step>, k: nat)
    requires k < |trace| && Switches(trace[k])
    ensures FactsIn(trace[..k+1]).outage == (trace[k] == Announced(ServerDown))
  {
    assert trace[..k+1] == trace[..k] + [trace[k]];
    TraceAppend(trace[..k], trace[k]);
  }

  lemma AnnouncedSwitches(trace: seq<Step>, k: nat)
    requires LegalTrace(trace) && k < |trace| && trace[k].Announced?
    ensures trace[k] == Announced(if FactsIn(trace[..k]).outage then ServerRecovered else ServerDown)
  {
    PrefixIsLegal(trace, k);
  }

  /** The latest switch before `n`, if there is one. */
  lemma {:induction false} LatestSwitch(trace: seq<Step>, n: nat) returns (j: Option<nat>)
    requires n <= |trace|
    ensures j.Some? ==> j.value < n && Switches(trace[j.value])
    ensures forall k :: (if j.Some? then j.value + 1 else 0) <= k < n ==> !Switches(trace[k])
    decreases n
  {
    if n == 0 { return None; }
    if Switches(trace[n-1]) { return Some(n - 1); }
    j := LatestSwitch(trace, n - 1);
  }

  lemma NoOutageYet(trace: seq<Step>, n: nat)
    requires n <= |trace| && forall k :: 0 <= k < n ==> !Switches(trace[k])
    ensures !FactsIn(trace[..n]).outage
  {
    OutageStays(trace, 0, n);
    assert trace[..0] == [];
  }

  /** Between two ServerDown lies a ServerRecovered or an operator stop of a server that was not stopped. */
  lemma BetweenDowns(trace: seq<Step>, i: nat, k: nat) returns (j: nat)
    requires LegalTrace(trace) && i < k < |trace| && trace[i] == trace[k] == Announced(ServerDown)
    ensures i < j < k && (trace[j] == Announced(ServerRecovered) || trace[j] == Parked(false))
  {
    hide FactsIn, LegalTrace;
    var last := LatestSwitch(trace, k);
    assert Switches(trace[i]);
    assert last.Some? && i <= last.value;
    j := last.value;
    AnnouncedSwitches(trace, k);
    if trace[j].Announced? { AnnouncedSwitches(trace, j); }
    OutageFollows(trace, j);
    OutageStays(trace, j + 1, k);
  }

  /** Every ServerRecovered has a ServerDown before it, with no other announcement and no effective stop
      between them. */
  lemma RecoveryHasDown(trace: seq<Step>, k: nat) returns (i: nat)
    requires LegalTrace(trace) && k < |trace| && trace[k] == Announced(ServerRecovered)
    ensures i < k && trace[i] == Announced(ServerDown) && forall j :: i < j < k ==> !Switches(trace[j])
  {
    hide FactsIn, LegalTrace;
    var last := LatestSwitch(trace, k);
    AnnouncedSwitches(trace, k);
    i := 0;
    if last.Some? {
      i := last.value;
      OutageFollows(trace, i);
      OutageStays(trace, i + 1, k);
    } else {
      NoOutageYet(trace, k);
    }
  }

  /** After an operator stop the next health announcement is ServerRecovered if and only if the stop found
      the server already stopped and an outage open; otherwise it is ServerDown. */
  lemma NextAfterStop(trace: seq<Step>, i: nat, j: nat)
    requires LegalTrace(trace) && i < j < |trace| && trace[i].Parked? && trace[j].Announced?
    requires forall k :: i < k < j ==> !trace[k].Parked? && !trace[k].Announced?
    ensures var f := FactsIn(trace[..i]);
      trace[j] == Announced(if f.status == Stopped && f.outage then ServerRecovered else ServerDown)
  {
    hide FactsIn, LegalTrace, Verdict, StreakWith, PlaceAfter, EventsIn;
    AnnouncedSwitches(trace, j);
    PrefixIsLegal(trace, i);
    OutageStays(trace, i + 1, j);
    assert trace[..i+1] == trace[..i] + [trace[i]];
    TraceAppend(trace[..i], trace[i]);
  }

  // ---- when an announcement is due ----

  /** An outage was announced and not closed since. */
  ghost predicate OpenOutage(trace: seq<Step>, n: nat) {
    exists i ::
      0 <= i < n <= |trace| && trace[i] == Announced(ServerDown) && forall m :: i < m < n ==> !Switches(trace[m])
  }

  /** The latest readings are evidence for an outage of a server that has shown itself healthy. */
  ghost predicate DownIsDue(trace: seq<Step>) {
    !OpenOutage(trace, |trace|) &&
    exists n :: 0 <= n < |trace| && HealthyBefore(trace, n) && Evidence(trace[n..], Unhealthy, 3, 30 * SECOND)
  }

  /** The latest readings, after the announcement of the open outage, are evidence for its end. */
  ghost predicate RecoveryIsDue(trace: seq<Step>) {
    exists n :: 0 <= n < |trace| && OpenOutage(trace, n) && Evidence(trace[n..], Healthy, 2, 15 * SECOND)
  }

  lemma {:induction false} OutageIffOpen(trace: seq<Step>, n: nat)
    requires LegalTrace(trace) && n <= |trace|
    ensures FactsIn(trace[..n]).outage <==> OpenOutage(trace, n)
    decreases n
  {
    hide FactsIn, LegalTrace, Verdict, StreakWith, PlaceAfter;
    if n == 0 {
      NoStreak();
      assert trace[..0] == [];
    } else {
      OutageIffOpen(trace, n - 1);
      assert trace[..n] == trace[..n-1] + [trace[n-1]];
      TraceAppend(trace[..n-1], trace[n-1]);
      OpenStep(trace, n);
      if trace[n-1].Announced? { AnnouncedSwitches(trace, n - 1); }
    }
  }

  lemma OpenStep(trace: seq<Step>, n: nat)
    requires 0 < n <= |trace|
    ensures OpenOutage(trace, n) <==>
      trace[n-1] == Announced(ServerDown) || (OpenOutage(trace, n - 1) && !Switches(trace[n-1]))
  {
    if trace[n-1] != Announced(ServerDown) && OpenOutage(trace, n - 1) && !Switches(trace[n-1]) {
      var i :| 0 <= i < n - 1 && trace[i] == Announced(ServerDown) && forall m :: i < m < n - 1 ==> !Switches(trace[m]);
      assert forall m :: i < m < n ==> !Switches(trace[m]);
    }
  }

  /** A streak begins no later than it was last seen. */
  lemma {:induction false} BeginsBefore(run: seq<Step>, health: Health)
    requires Unbroken(run, health) && run != [] && run[0].Seen?
    ensures LastSeen(run).Some? && run[0].at <= LastSeen(run).value
    decreases |run|
  {
    if |run| > 1 {
      BeginsBefore(run[..|run|-1], health);
    } else {
      assert LastSeen(run) == Some(run[0].at);
    }
  }

  /** The running streak covers any unbroken run that ends the trace and begins with a reading of a server
      that has shown itself healthy: it shows the same, began no later and counts no less. */
  lemma {:induction false} StreakCovers(trace: seq<Step>, n: nat, health: Health)
    requires LegalTrace(trace) && n < |trace| && HealthyBefore(trace, n) && health != NoReading
    requires Counted(trace[n]) && Unbroken(trace[n..], health)
    ensures Covers(FactsIn(trace), trace[n..], health)
    decreases |trace|
  {
    hide FactsIn, LegalTrace, Verdict, Covers;
    var init, s := trace[..|trace|-1], trace[|trace|-1];
    assert trace == init + [s];
    PrefixIsLegal(trace, |trace| - 1);
    TraceAppend(init, s);
    StreakIsLatest(init);
    if n == |trace| - 1 {
      assert trace[n..] == [s];
      BaselineIffHealthy(trace, n);
      StreakBegins(FactsIn(init), s, health);
    } else {
      assert trace[n..] == init[n..] + [s] && (trace[n..])[..|trace[n..]|-1] == init[n..];
      RunAppend(init[n..], s, health);
      HealthyInPrefix(trace, n);
      StreakCovers(init, n, health);
      CoverGrows(FactsIn(init), init[n..], s, health);
    }
  }

  lemma HealthyInPrefix(trace: seq<Step>, n: nat)
    requires n < |trace| && HealthyBefore(trace, n)
    ensures HealthyBefore(trace[..|trace|-1], n)
  {
    var j :| 0 <= j < n && ShowsHealthy(trace[j]) && forall m :: j < m < n ==> trace[m] != Parked(false);
    assert ShowsHealthy(trace[..|trace|-1][j]);
  }

  predicate Covers(f: Facts, run: seq<Step>, health: Health) {
    && f.run != [] && f.run[0].Seen? && f.run[0].health == health && f.baseline
    && run != [] && run[0].Seen? && f.run[0].at <= run[0].at
    && CountIn(f.run) >= CountIn(run) && f.lastAt.Some? && f.lastAt == LastSeen(run)
  }

  lemma StreakBegins(f: Facts, s: Step, health: Health)
    requires StreakHolds(f) && Legal(f, s) && f.baseline && health != NoReading
    requires Counted(s) && Unbroken([s], health)
    ensures Covers(After(f, s), [s], health)
  {
    hide Verdict;
    assert [s][..0] == [];
    SingleRun(s);
    RunAppend(f.run, s, health);
    if f.run != [] { BeginsBefore(f.run, f.run[0].health); }
  }

  lemma CoverGrows(f: Facts, run: seq<Step>, s: Step, health: Health)
    requires Covers(f, run, health) && Continues(run, s, health) && health != NoReading
    ensures Covers(After(f, s), run + [s], health)
  {
    hide Verdict, CountIn, LastSeen, Unbroken;
    RunAppend(run, s, health);
    RunAppend(f.run, s, health);
    assert (run + [s])[0] == run[0] && (f.run + [s])[0] == f.run[0];
  }

  lemma CoveredEvidence(trace: seq<Step>, n: nat, health: Health, count: nat, span: int)
    requires LegalTrace(trace) && n < |trace| && HealthyBefore(trace, n) && health != NoReading
    requires Evidence(trace[n..], health, count, span)
    ensures Evidence(FactsIn(trace).run, health, count, span)
  {
    hide FactsIn, LegalTrace, Unbroken, CountIn, LastSeen;
    StreakCovers(trace, n, health);
    StreakIsLatest(trace);
    EvidenceIs(FactsIn(trace), health, count, span);
  }

  /** The running streak as evidence within the trace. */
  lemma EvidenceAt(trace: seq<Step>, health: Health, count: nat, span: int) returns (n: nat)
    requires LegalTrace(trace) && Evidence(FactsIn(trace).run, health, count, span)
    ensures n < |trace| && Evidence(trace[n..], health, count, span)
  {
    hide FactsIn, LegalTrace, Unbroken, CountIn, LastSeen;
    StreakIsLatest(trace);
    n := |trace| - |FactsIn(trace).run|;
  }

  /** What the running streak is evidence for is exactly what is due by the trace. */
  lemma VerdictIffDue(trace: seq<Step>)
    requires LegalTrace(trace)
    ensures var v := Verdict(FactsIn(trace).outage, FactsIn(trace).run);
      && (v == [Announced(ServerDown)] <==> DownIsDue(trace))
      && (v == [Announced(ServerRecovered)] <==> RecoveryIsDue(trace))
  {
    hide FactsIn, LegalTrace, Evidence, OpenOutage, HealthyBefore;
    assert trace[..|trace|] == trace;
    OutageIffOpen(trace, |trace|);
    if Evidence(FactsIn(trace).run, Unhealthy, 3, 30 * SECOND) { DownFollows(trace); }
    if DownIsDue(trace) {
      var n :| 0 <= n < |trace| && HealthyBefore(trace, n) && Evidence(trace[n..], Unhealthy, 3, 30 * SECOND);
      CoveredEvidence(trace, n, Unhealthy, 3, 30 * SECOND);
    }
    if FactsIn(trace).outage && Evidence(FactsIn(trace).run, Healthy, 2, 15 * SECOND) { RecoveryFollows(trace); }
    if RecoveryIsDue(trace) {
      var n :| 0 <= n < |trace| && OpenOutage(trace, n) && Evidence(trace[n..], Healthy, 2, 15 * SECOND);
      OpenStaysOpen(trace, n);
      OpenWasHealthy(trace, n);
      CoveredEvidence(trace, n, Healthy, 2, 15 * SECOND);
    }
  }

  /** The same for a reading: what it announces, and whether it can announce anything. */
  lemma ReadingIffDue(before: seq<Step>, s: Step)
    requires LegalTrace(before + [s]) && Counted(s)
    ensures var f, seen := FactsIn(before), before + [s];
      if s.health != NoReading && f.baseline then
        && (Verdict(f.outage, StreakWith(f, s)) == [Announced(ServerDown)] <==> DownIsDue(seen))
        && (Verdict(f.outage, StreakWith(f, s)) == [Announced(ServerRecovered)] <==> RecoveryIsDue(seen))
      else !DownIsDue(seen) && !RecoveryIsDue(seen)
  {
    hide FactsIn, LegalTrace, Unbroken, CountIn, LastSeen, DownIsDue, RecoveryIsDue, StreakWith;
    TraceAppend(before, s);
    VerdictIffDue(before + [s]);
  }

  lemma AddsOne(t: seq<Step>, more: seq<Step>, s: Step)
    ensures t + more == t + [s] <==> more == [s]
  {
    if t + more == t + [s] {
      assert more == (t + more)[|t|..] == (t + [s])[|t|..] == [s];
    }
  }

  lemma DownFollows(trace: seq<Step>)
    requires LegalTrace(trace) && Evidence(FactsIn(trace).run, Unhealthy, 3, 30 * SECOND)
    ensures exists n :: 0 <= n < |trace| && HealthyBefore(trace, n) && Evidence(trace[n..], Unhealthy, 3, 30 * SECOND)
  {
    hide FactsIn, LegalTrace, Unbroken, CountIn, LastSeen, ShowsHealthy;
    assert trace[..|trace|] == trace;
    var n := EvidenceAt(trace, Unhealthy, 3, 30 * SECOND);
    StreakIsLatest(trace);
    BaselineIffHealthy(trace, |trace|);
    var j :| 0 <= j < |trace| && ShowsHealthy(trace[j]) && forall m :: j < m < |trace| ==> trace[m] != Parked(false);
    HealthPrecedes(trace, j, n, |trace|);
    assert HealthyBefore(trace, n);
  }

  lemma RecoveryFollows(trace: seq<Step>)
    requires LegalTrace(trace) && OpenOutage(trace, |trace|) && Evidence(FactsIn(trace).run, Healthy, 2, 15 * SECOND)
    ensures RecoveryIsDue(trace)
  {
    hide FactsIn, LegalTrace, CountIn, LastSeen, Unbroken;
    var n := EvidenceAt(trace, Healthy, 2, 15 * SECOND);
    var i :|
      0 <= i < |trace| && trace[i] == Announced(ServerDown) && forall m :: i < m < |trace| ==> !Switches(trace[m]);
    if i >= n { NoSwitchIn(trace[n..], Healthy, i - n); }
    assert OpenOutage(trace, n);
  }

  lemma {:induction false} NoSwitchIn(run: seq<Step>, health: Health, i: nat)
    requires Unbroken(run, health) && i < |run|
    ensures !Switches(run[i])
    decreases |run|
  {
    if i < |run| - 1 { NoSwitchIn(run[..|run|-1], health, i); }
  }

  lemma OpenStaysOpen(trace: seq<Step>, n: nat)
    requires n <= |trace| && OpenOutage(trace, n) && Evidence(trace[n..], Healthy, 2, 15 * SECOND)
    ensures OpenOutage(trace, |trace|)
  {
    hide Unbroken, Switches;
    var i :| 0 <= i < n && trace[i] == Announced(ServerDown) && forall m :: i < m < n ==> !Switches(trace[m]);
    forall m | i < m < |trace| ensures !Switches(trace[m]) {
      if m >= n { NoSwitchIn(trace[n..], Healthy, m - n); }
    }
  }

  /** While an outage is open there is a healthy baseline. */
  lemma OpenWasHealthy(trace: seq<Step>, n: nat)
    requires LegalTrace(trace) && n <= |trace| && OpenOutage(trace, n)
    ensures HealthyBefore(trace, n)
  {
    hide LegalTrace, Evidence, ShowsHealthy;
    var i :| 0 <= i < n && trace[i] == Announced(ServerDown) && forall m :: i < m < n ==> !Switches(trace[m]);
    var j, k := DownIsJustified(trace, i);
    forall m | j < m < n ensures trace[m] != Parked(false) {
      if m > i { assert !Switches(trace[m]); }
    }
  }

  // ---- the monitor ----

  class Monitor {
    var status: Status
    var source: StopSource
    var lastAt: Option<int>
    var baseline: bool
    var outage: bool
    var streak: Health       // NoReading when there is no streak
    var streakCount: nat
    var streakSince: int
    var pending: bool
    var events: seq<Event>
    ghost var trace: seq<Step>

    /** The fields say what the facts say. */
    ghost predicate Shows(f: Facts)
      reads this
    {
      && status == f.status && source == f.source && lastAt == f.lastAt && pending == f.pending
      && baseline == f.baseline && outage == f.outage && ShowsStreak(f.run)
    }

    ghost predicate ShowsStreak(run: seq<Step>)
      reads this`streak, this`streakCount, this`streakSince
    {
      && (run == [] ==> streak == NoReading)
      && (run != [] ==> run[0].Seen? && streak == run[0].health && streakSince == run[0].at)
      && streakCount == CountIn(run)
    }

    ghost predicate Valid()
      reads this
    {
      LegalTrace(trace) && StreakHolds(FactsIn(trace)) && Shows(FactsIn(trace)) && events == EventsIn(trace)
    }

    constructor ()
      ensures Valid() && trace == []
    {
      status, source, lastAt, baseline, outage := Running, NoSource, None, false, false;
      streak, streakCount, streakSince, pending, events := NoReading, 0, 0, false, [];
      trace := [];
    }

    method ResetStreak()
      modifies this`streak, this`streakCount
      ensures streak == NoReading && streakCount == 0
    {
      streak, streakCount := NoReading, 0;
    }

    /** Records a step whose effect the fields already show. */
    ghost method Record(s: Step, before: Facts)
      requires LegalTrace(trace) && before == FactsIn(trace) && StreakHolds(before) && Legal(before, s)
      requires Shows(After(before, s))
      requires events == EventsIn(trace) +
        match s case Parked(already) => (if already then [] else [ServerStopped]) case Announced(e) => [e] case _ => []
      modifies this`trace
      ensures Valid() && trace == old(trace) + [s]
    {
      hide LegalTrace, FactsIn, StreakHolds, Legal, After, EventsIn;
      TraceAppend(trace, s);
      StreakKept(before, s);
      trace := trace + [s];
    }

    /** The operator parks the server. Only a stop of a server that was not stopped already closes an
        open outage and forgets the baseline. */
    method PersistStop() returns (ok: bool)
      requires Valid()
      modifies this
      ensures Valid() && ok == !old(pending)
      ensures trace == old(trace) + if ok then [Parked(old(status) == Stopped)] else []
      ensures pending == old(pending) && lastAt == old(lastAt) && (ok ==> status == Stopped && source == Operator)
    {
      hide Unbroken, LastSeen, LegalTrace, FactsIn, EventsIn, StreakHolds, Verdict, CountIn;
      if pending { return false; }
      ghost var f, already := FactsIn(trace), status == Stopped;
      if status != Stopped {
        outage, baseline := false, false;
        ResetStreak();
        events := events + [ServerStopped];
      } else {
        assert events == events + [];
      }
      status, source := Stopped, Operator;
      CountStays(f.run, Parked(already));
      Record(Parked(already), f);
      ok := true;
    }

    method PersistStart()
      requires Valid()
      modifies this
      ensures Valid() && trace == old(trace) + [Started]
      ensures pending == old(pending) && lastAt == old(lastAt)
      ensures status == if old(status) == Stopped then OtherStatus else old(status)
    {
      hide Unbroken, LastSeen, LegalTrace, FactsIn, EventsIn, StreakHolds, Verdict, CountIn;
      ghost var f := FactsIn(trace);
      if status == Stopped { status, source := OtherStatus, NoSource; }
      CountStays(f.run, Started);
      Record(Started, f);
    }

    /** A restart is reserved unless one is pending: the streak starts over. */
    method ReserveRestart() returns (ok: bool)
      requires Valid()
      modifies this
      ensures Valid() && ok == !old(pending) && trace == old(trace) + if ok then [Reserved] else []
    {
      hide Unbroken, LastSeen, LegalTrace, FactsIn, EventsIn, StreakHolds, Verdict, CountIn;
      if pending { return false; }
      ghost var f := FactsIn(trace);
      CountNone();
      ResetStreak();
      pending, status, source := true, OtherStatus, NoSource;
      Record(Reserved, f);
      ok := true;
    }

    /** The panel process restarts: readings and streaks start over, everything else stays. */
    method RecoverAlerts()
      requires Valid()
      modifies this
      ensures Valid() && trace == old(trace) + [ProcessRestarted]
    {
      hide Unbroken, LastSeen, LegalTrace, FactsIn, EventsIn, StreakHolds, Verdict, CountIn;
      ghost var f := FactsIn(trace);
      CountNone();
      ResetStreak();
      lastAt := None;
      Record(ProcessRestarted, f);
    }

    method PersistObservedStatus(observed: Option<Status>)
      modifies this`status, this`source
      ensures (status, source) == old(PlaceAfter(status, source, observed))
    {
      if observed.None? || observed == Some(UnknownStatus) { return; }
      if observed == Some(Stopped) {
        if status == Stopped && source != Observed { return; }
        status, source := Stopped, Observed;
      } else if status == Stopped {
        if source != Observed { return; }
        status, source := observed.value, NoSource;
      }
    }

    predicate Fresh(at: int, now: int)
      reads this
    {
      !(status == Stopped && source != Observed) && (lastAt.Some? ==> lastAt.value < at) &&
      now - at <= TELEMETRY_MAX_AGE && at <= now
    }

    /** A reading is taken in exactly when the operator has not stopped the server, and it is newer than the last,
        not from the future and at most 45 seconds old. */
    lemma FreshIs(at: int, now: int)
      ensures Fresh(at, now) <==>
        && (status == Stopped ==> source == Observed) && (lastAt != None ==> lastAt.value < at)
        && 0 <= now - at <= 45_000_000_000
    {
    }

    /** The step that a fresh reading is. */
    ghost function StepOf(at: int, observed: Option<Status>, health: Health): Step
      reads this
    {
      var stopped := PlaceAfter(status, source, observed).0 == Stopped;
      Seen(at, observed, health, stopped, !stopped && pending)
    }

    /** A reading that takes part in a streak. */
    predicate Enters(observed: Option<Status>, health: Health)
      reads this
    {
      PlaceAfter(status, source, observed).0 != Stopped && !pending && health != NoReading && baseline
    }

    /** Takes a fresh reading in: where the server is, when it was seen, and the streak. */
    method Take(at: int, observed: Option<Status>, health: Health)
      requires Valid() && !(status == Stopped && source != Observed) && (lastAt.Some? ==> lastAt.value < at)
      modifies this
      ensures Valid() && trace == old(trace) + [old(StepOf(at, observed, health))]
      ensures (status, source) == old(PlaceAfter(status, source, observed)) && lastAt == Some(at)
        && pending == old(pending)
    {
      hide Unbroken, LastSeen, LegalTrace, FactsIn, EventsIn, CountIn, StreakHolds, Verdict, After, PlaceAfter;
      ghost var f, s := FactsIn(trace), StepOf(at, observed, health);
      CountStays(f.run, s);
      TakenIn(f, s);
      PersistObservedStatus(observed);
      if status != Stopped { UpdateStreak(at, health, f, s); }
      lastAt := Some(at);
      Record(s, f);
    }

    /** The streak and the baseline after a reading that did not find the server stopped. */
    method UpdateStreak(at: int, health: Health, ghost f: Facts, ghost s: Step)
      requires s.Seen? && !s.stopped && s.pending == f.pending && s.at == at && s.health == health
      requires StreakHolds(f) && ShowsStreak(f.run) && lastAt == f.lastAt && pending == f.pending
        && baseline == f.baseline
      modifies this`streak, this`streakCount, this`streakSince, this`baseline
      ensures ShowsStreak(After(f, s).run) && baseline == After(f, s).baseline
    {
      hide Unbroken, LastSeen, CountIn;
      CountStays(f.run, s);
      CountOne(s);
      if lastAt.None? || at - lastAt.value > TELEMETRY_MAX_AGE { ResetStreak(); }
      if pending || health == NoReading || !baseline {
        ResetStreak();
        if !pending && health == Healthy { baseline := true; }
      } else {
        if streak != health { streak, streakCount, streakSince := health, 0, at; }
        streakCount := streakCount + 1;
      }
    }

    /** One reading. `ends` is the verdict on a pending restart, if the reading settles it. A reading that
        takes part in a streak announces exactly what the streak it ends is evidence for; no other reading
        announces anything. */
    method Observe(at: int, observed: Option<Status>, health: Health, ends: Option<bool>, now: int)
      requires Valid()
      modifies this
      ensures Valid()
      ensures !old(Fresh(at, now)) ==> trace == old(trace)
      ensures old(Fresh(at, now)) ==>
        var s := old(StepOf(at, observed, health));
        trace == old(trace) + [s] +
          (if s.pending && ends.Some? then [RestartEnded(ends.value)]
           else if old(Enters(observed, health)) then
             old(Verdict(outage, StreakWith(FactsIn(trace), StepOf(at, observed, health))))
           else [])
      // In terms of what happened: the announcement comes exactly when it is due.
      ensures old(Fresh(at, now)) ==>
        var s := old(StepOf(at, observed, health));
        var seen := old(trace) + [s];
        && (trace == seen + [Announced(ServerDown)] <==> Counted(s) && DownIsDue(seen))
        && (trace == seen + [Announced(ServerRecovered)] <==> Counted(s) && RecoveryIsDue(seen))
      ensures old(Fresh(at, now)) ==>
        var settled := old(StepOf(at, observed, health)).pending && ends.Some?;
        && lastAt == Some(at) && pending == (old(pending) && !settled)
        && (!settled ==> (status, source) == old(PlaceAfter(status, source, observed)))
    {
      hide Unbroken, LastSeen, LegalTrace, StreakHolds, EventsIn, CountIn, Verdict, StreakWith, DownIsDue,
        RecoveryIsDue;
      if !Fresh(at, now) { return; }
      ghost var before, s := trace, StepOf(at, observed, health);
      var waits, enters := pending, Enters(observed, health);
      Take(at, observed, health);
      TraceAppend(before, s);
      ghost var seen := trace;
      if Counted(s) { ReadingIffDue(before, s); }
      if enters { StreakRuns(FactsIn(before), s); }
      if status == Stopped { return; }
      if waits {
        if ends.Some? { EndRestart(ends.value); }
        return;
      }
      if enters { Announce(); }
      AddsOne(seen, trace[|seen|..], Announced(ServerDown));
      AddsOne(seen, trace[|seen|..], Announced(ServerRecovered));
    }

    /** A completed restart counts as a healthy baseline; a failed one does not. */
    method EndRestart(completed: bool)
      requires Valid() && pending
      modifies this
      ensures Valid() && trace == old(trace) + [RestartEnded(completed)]
      ensures !pending && lastAt == old(lastAt)
    {
      hide Unbroken, LastSeen, LegalTrace, FactsIn, EventsIn, StreakHolds, Verdict, CountIn;
      ghost var f := FactsIn(trace);
      CountNone();
      ResetStreak();
      pending := false;
      if completed {
        baseline := true;
        source := NoSource;
      }
      status := OtherStatus;
      Record(RestartEnded(completed), f);
    }

    /** Announces an outage or its end when the streak is long enough. */
    method Announce()
      requires Valid() && streak != NoReading
      modifies this
      ensures Valid() && trace == old(trace) + old(Verdict(outage, FactsIn(trace).run))
      ensures status == old(status) && source == old(source) && lastAt == old(lastAt) && pending == old(pending)
    {
      hide Unbroken, LastSeen, LegalTrace, FactsIn, EventsIn, CountIn, Evidence;
      ghost var f := FactsIn(trace);
      EvidenceIs(f, Unhealthy, 3, 30 * SECOND);
      EvidenceIs(f, Healthy, 2, 15 * SECOND);
      CountNone();
      if !outage && streak == Unhealthy && streakCount >= 3 && lastAt.value - streakSince >= 30 * SECOND {
        outage := true;
        ResetStreak();
        events := events + [ServerDown];
        Record(Announced(ServerDown), f);
      } else if outage && streak == Healthy && streakCount >= 2 && lastAt.value - streakSince >= 15 * SECOND {
        outage := false;
        ResetStreak();
        events := events + [ServerRecovered];
        Record(Announced(ServerRecovered), f);
      }
    }
  }

  lemma TakenIn(f: Facts, s: Step)
    requires s.Seen?
    ensures var g := After(f, s);
      && (g.status, g.source) == PlaceAfter(f.status, f.source, s.observed) && g.lastAt == Some(s.at)
      && g.pending == f.pending && g.outage == f.outage
      && (s.stopped ==> g.baseline == f.baseline && g.run == Extended(f.run, s))
  {
  }

  /** A reading that takes part in a streak leaves one running. */
  lemma StreakRuns(f: Facts, s: Step)
    requires StreakHolds(f) && Legal(f, s) && Counted(s) && s.health != NoReading && f.baseline
    ensures After(f, s).run == StreakWith(f, s) != [] && After(f, s).outage == f.outage
    ensures StreakWith(f, s)[0].Seen? && StreakWith(f, s)[0].health != NoReading
  {
    hide Unbroken, LastSeen;
  }

  lemma CountStays(run: seq<Step>, s: Step)
    ensures CountIn(run + [s]) == CountIn(run) + if Counted(s) then 1 else 0
    ensures CountIn(Extended(run, s)) == if run == [] then 0 else CountIn(run + [s])
    ensures CountIn([]) == 0
  {
    RunAppend(run, s, Healthy);
  }

  lemma CountOne(s: Step)
    ensures Counted(s) ==> CountIn([s]) == 1
    ensures CountIn([]) == 0
  {
    if Counted(s) { SingleRun(s); }
  }

  lemma CountNone()
    ensures CountIn([]) == 0
  {
  }

  lemma EvidenceIs(f: Facts, health: Health, count: nat, span: int)
    requires StreakHolds(f) && f.run != []
    ensures Evidence(f.run, health, count, span) <==>
      f.run[0].health == health && CountIn(f.run) >= count && f.lastAt.value - f.run[0].at >= span
  {
    StreakHealth(f.run, f.run[0].health, health);
  }
}
