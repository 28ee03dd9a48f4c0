/** The stored reboot state and the steps that change it: saving, claiming, dispatching, observing,
    stopping, deleting, warning and restarting the process. Each method is one atomic update. */
module Reboots {
  import opened Options
  import opened RebootLedger
  import opened Units

  datatype Status = Online | Starting | Attention | Stopped | Deleting | Stale | Unknown
  datatype StopSource = NoSource | Operator | Observed
  datatype Server = Server(status: Status, source: StopSource, operation: Option<Id>)

  datatype Health = Healthy | Unhealthy | NoReading

  datatype Observation = Observation(at: int, status: Option<Status>, health: Health, runtime: int,
                                     operation: Option<Id>, runtimeStarted: int)

  const NO_RUNTIME := 0

  datatype SaveOutcome = Saved(id: Id) | NoServer | BeingDeleted | TooMany | NotFound | NoNextRun

  /** Every instant the timing library returns is later than the one it was asked about. */
  ghost predicate Later(next: (nat, Option<int>, int) -> Option<int>) {
    forall k, a, t {:trigger next(k, a, t)} :: next(k, a, t).Some? ==> t < next(k, a, t).value
  }

  predicate Due(s: Schedule, now: int) {
    s.enabled && s.nextRun.Some? && s.nextRun.value <= now
  }

  /** Every history entry is one of the records made, with a possibly later result. */
  predicate FromLog(history: seq<Execution>, log: seq<Execution>) {
    forall h <- history :: h.number < |log| && h == log[h.number].(result := h.result)
  }

  lemma FromLogTrims(history: seq<Execution>, log: seq<Execution>)
    requires FromLog(history, log)
    ensures FromLog(Trimmed(history), log)
  {
    TrimKeepsWaiting(history);
  }

  lemma FromLogRecords(history: seq<Execution>, log: seq<Execution>, e: Execution)
    requires FromLog(history, log) && e.number == |log|
    ensures FromLog(history + [e], log + [e])
  {
  }

  lemma FromLogFinishes(history: seq<Execution>, log: seq<Execution>, op: Id, result: Result)
    requires FromLog(history, log)
    ensures FromLog(FinishAll(history, op, result), log)
  {
    var f := FinishAll(history, op, result);
    forall h | h in f ensures h.number < |log| && h == log[h.number].(result := h.result) {
      var i :| 0 <= i < |f| && f[i] == h;
      assert history[i] in history;
    }
  }

  /** Only the summary of the last occurrence may differ. */
  predicate SameButLast(s: Schedule, t: Schedule) {
    t == s.(lastAt := t.lastAt, lastResult := t.lastResult, lastOperation := t.lastOperation)
  }

  predicate AllSameButLast(before: map<Id, Schedule>, after: map<Id, Schedule>) {
    before.Keys == after.Keys && forall id <- before :: SameButLast(before[id], after[id])
  }

  lemma {:induction false} ReportsChangeSummaries(schedules: map<Id, Schedule>, es: seq<Execution>)
    ensures AllSameButLast(schedules, ReportAll(schedules, es))
    decreases |es|
  {
    if es != [] { ReportsChangeSummaries(schedules, es[..|es|-1]); }
  }

  /** The server after an observation: a changed status brings its own stop source. */
  function ServerWith(s: Server, seen: Option<Status>): Server {
    var status := StatusWith(s, seen);
    if status == s.status then s else s.(status := status, source := if status == Stopped then Observed else NoSource)
  }

  lemma NothingReported(schedules: map<Id, Schedule>, op: Id, result: Result)
    ensures ReportAll(schedules, Outcomes([], op, result)) == schedules
  {
  }

  /** The status after an observation: it stops a server or starts one that was observed to stop, and
      nothing else; a server that is being deleted or that the operator stopped keeps its status. */
  function StatusWith(s: Server, seen: Option<Status>): Status {
    if seen.None? || seen == Some(Unknown) || s.status == Deleting || s.status == Stale then s.status
    else if seen == Some(Stopped) then Stopped
    else if s.status == Stopped && s.source == Observed then seen.value
    else s.status
  }

  lemma StatusSeen(s: Server, seen: Option<Status>)
    ensures ServerWith(s, seen).status == StatusWith(s, seen)
  {
  }

  /** The evidence that completes a restart: a healthy, marked, different runtime that started no
      earlier than the request, to the second. */
  predicate Replaced(r: Restart, o: Observation) {
    o.health == Healthy && o.runtime != NO_RUNTIME && o.runtime != r.runtime && o.operation == Some(r.id) &&
    o.runtimeStarted >= r.requestedAt - r.requestedAt % SECOND
  }

  predicate TimedOut(r: Restart, o: Observation) {
    o.at - r.requestedAt >= RESTART_TIMEOUT && o.health != NoReading
  }

  /** The entry made when the due run of `s` is recorded. */
  function RecordOf(number: nat, s: Schedule, operation: Option<Id>, result: Result): Execution
    requires s.nextRun.Some?
  {
    Execution(number, s.id, s.revision, s.def.server, s.nextRun.value, operation, result)
  }

  predicate RecordedIn(log: seq<Execution>, from: nat, s: Schedule, operation: Option<Id>, result: Result)
    requires s.nextRun.Some?
  {
    exists i :: from <= i < |log| && log[i] == RecordOf(i, s, operation, result)
  }

  /** `t` is `s` moved on to the first run after `now`, or disabled when there is none. */
  predicate Moved(next: (nat, Option<int>, int) -> Option<int>, s: Schedule, t: Schedule, now: int) {
    var n := next(s.def.timing, s.anchor, now);
    SameButLast(s.(enabled := n.Some?, nextRun := n), t) && t.lastAt == s.nextRun
  }

  predicate Late(s: Schedule, now: int) { s.nextRun.Some? && now - s.nextRun.value > LATE_WINDOW }

  predicate DistinctIds(ids: seq<Id>) { forall i, j :: 0 <= i < j < |ids| ==> ids[i] != ids[j] }

  /** What an observation says about the status: it stops any server that is not being deleted, starts one that
      was observed to stop, and does nothing else. */
  lemma ServerWithIs(s: Server, seen: Option<Status>)
    ensures var t := ServerWith(s, seen);
      if s.status == Deleting || s.status == Stale || seen == None || seen == Some(Unknown) then t == s
      else if seen == Some(Stopped) then
        t.status == Stopped && t.source == (if s.status == Stopped then s.source else Observed)
      else if s.status == Stopped && s.source == Observed then
        t.status == seen.value && t.source == NoSource
      else t == s
  {
  }

  class RebootState {
    var servers: map<Id, Server>
    var deletions: set<Id>
    var schedules: map<Id, Schedule>
    var history: seq<Execution>
    var producers: map<Id, Producer>
    var announced: seq<Announcement>   // RestartCompleted and RestartFailed events
    var warned: seq<Warning>           // scheduled RestartWarning events
    var records: nat                   // source of fresh record IDs
    ghost var log: seq<Execution>
    ghost var usedIds: set<Id>
    ghost var issued: set<Id>
    ghost var orphaned: set<Id>
    ghost var clock: int
    const next: (nat, Option<int>, int) -> Option<int>
    const parses: nat -> bool
    const isInterval: nat -> bool

    ghost predicate Valid()
      reads this
    {
      && Later(next)
      && records == |log|
      && SchedulesAhead(schedules, log, clock)
      && WarnedOnce(schedules, warned, usedIds)
      && Reconciled(history, producers, announced, issued, orphaned)
      && FromLog(history, log)
    }

    constructor (next: (nat, Option<int>, int) -> Option<int>, parses: nat -> bool, isInterval: nat -> bool)
      requires Later(next)
      ensures Valid() && log == [] && warned == [] && announced == []
    {
      this.next, this.parses, this.isInterval := next, parses, isInterval;
      servers, deletions, schedules, history, producers, announced := map[], {}, map[], [], map[], [];
      warned, records := [], 0;
      log, usedIds, issued, orphaned, clock := [], {}, {}, {}, 0;
    }

    /** Whatever has been done to it: no occurrence of a schedule was ever recorded twice, no operation announced
        twice, no occurrence warned of twice; no operation waits for two servers; every warning came inside its
        window; and an announced operation has no entry left waiting. */
    lemma OnceEach()
      requires Valid()
      ensures forall i, j :: 0 <= i < j < |log| && log[i].schedule == log[j].schedule ==> log[i].at < log[j].at
      ensures forall i, j :: 0 <= i < j < |announced| ==> announced[i].operation != announced[j].operation
      ensures forall i, j :: 0 <= i < j < |warned| ==>
        (warned[i].schedule, warned[i].revision, warned[i].at) != (warned[j].schedule, warned[j].revision, warned[j].at)
      ensures forall w <- warned :: 0 < w.at - w.issued <= w.lead * 60_000_000_000
      ensures forall a, b ::
        a in producers && b in producers && a != b && producers[a].restart.Some? && producers[b].restart.Some? ==>
          producers[a].restart.value.id != producers[b].restart.value.id
      ensures forall i, h :: 0 <= i < |announced| && h in history && h.operation == Some(announced[i].operation) ==>
        h.result !in {Awaiting, Uncertain}
    {
    }

    /** The time of this step; the clock never runs backwards. */
    ghost method Tick(now: int)
      requires Valid() && clock <= now
      modifies this`clock
      ensures Valid() && clock == now
    {
      ForgetKeepsAhead(schedules, schedules, log, clock, now);
      clock := now;
    }

    function GetProducer(id: Id): Producer
      reads this`producers
    {
      if id in producers then producers[id] else Producer(None, NO_RUNTIME, None)
    }

    predicate IsStopped(id: Id)
      reads this
    {
      id in servers && servers[id].status == Stopped
    }

    predicate SkipsAutomatedRestarts(id: Id)
      reads this
    {
      id in deletions || IsStopped(id)
    }

    method TrimHistory()
      modifies this`history
      ensures history == Trimmed(old(history))
    {
      while |history| > MAX_HISTORY
        invariant Trimmed(history) == Trimmed(old(history))
        decreases |history|
      {
        var index := 0;
        while index < |history| && Active(history[index].result)
          invariant 0 <= index <= |history|
          invariant FirstInactive(history, index) == FirstInactive(history, 0)
        {
          index := index + 1;
        }
        if index == |history| { return; }
        history := history[..index] + history[index+1..];
      }
    }

    /** Appends the record of the due run of schedule `s`. */
    method RecordExecution(s: Schedule, operation: Option<Id>, result: Result) returns (e: Execution)
      requires s.nextRun.Some? && records == |log|
      requires Reconciled(history, producers, announced, issued, orphaned) && FromLog(history, log)
      requires Active(result) ==> operation.Some? && Pending(producers, operation.value)
      modifies this`history, this`records, this`log
      ensures e == RecordOf(|old(log)|, s, operation, result)
      ensures log == old(log) + [e] && records == |log| && history == Trimmed(old(history) + [e])
      ensures Reconciled(history, producers, announced, issued, orphaned) && FromLog(history, log)
    {
      e := Execution(records, s.id, s.revision, s.def.server, s.nextRun.value, operation, result);
      RecordKeepsReconciled(history, producers, announced, issued, orphaned, e);
      FromLogRecords(history, log, e);
      TrimKeepsReconciled(history + [e], producers, announced, issued, orphaned);
      FromLogTrims(history + [e], log + [e]);
      history := history + [e];
      records := records + 1;
      log := log + [e];
      TrimHistory();
    }

    /** Moves a schedule whose due run was just recorded on to its next run after `now`. */
    method AdvanceSchedule(s: Schedule, e: Execution, now: int)
      requires Later(next) && clock == now && log != [] && e == log[|log|-1]
      requires SchedulesAhead(schedules, log[..|log|-1], clock) && WarnedOnce(schedules, warned, usedIds)
      requires s.id in schedules && schedules[s.id] == s && Due(s, now) && e.schedule == s.id && s.nextRun == Some(e.at)
      modifies this`schedules
      ensures SchedulesAhead(schedules, log, clock) && WarnedOnce(schedules, warned, usedIds)
      ensures schedules.Keys == old(schedules).Keys
      ensures forall id <- schedules :: id != s.id ==> schedules[id] == old(schedules)[id]
      ensures Moved(next, s, schedules[s.id], now) && schedules[s.id].lastOperation == e.operation
      ensures schedules[s.id].lastResult == Some(if schedules[s.id].enabled then e.result else Skipped)
    {
      var t := s.(lastAt := Some(e.at), lastResult := Some(e.result), lastOperation := e.operation);
      var n := next(t.def.timing, t.anchor, now);
      if n.None? {
        t := t.(enabled := false, nextRun := None, lastResult := Some(Skipped));
      } else {
        t := t.(nextRun := n);
      }
      RecordKeepsAhead(schedules, log[..|log|-1], clock, now, e, t);
      assert log == log[..|log|-1] + [e];
      StoreKeepsWarned(schedules, warned, usedIds, t);
      assert usedIds + {s.id} == usedIds;
      schedules := schedules[s.id := t];
    }

    /** Records schedule `s`'s due run and moves it on. */
    method RecordAndAdvance(s: Schedule, operation: Option<Id>, result: Result, now: int)
      requires Valid() && clock == now
      requires s.id in schedules && schedules[s.id] == s && Due(s, now)
      requires Active(result) ==> operation.Some? && Pending(producers, operation.value)
      modifies this`history, this`schedules, this`records, this`log
      ensures Valid()
      ensures log == old(log) + [RecordOf(|old(log)|, s, operation, result)]
      ensures history == Appended(old(history), log[|old(log)|..])
      ensures !Active(result) ==> Waiting(history) == Waiting(old(history))
      ensures schedules.Keys == old(schedules).Keys
      ensures forall id <- schedules :: id != s.id ==> schedules[id] == old(schedules)[id]
      ensures Moved(next, s, schedules[s.id], now) && schedules[s.id].lastOperation == operation
      ensures schedules[s.id].lastResult == Some(if schedules[s.id].enabled then result else Skipped)
    {
      hide SchedulesAhead, WarnedOnce, Reconciled, FromLog, Moved, Trimmed, Appended;
      ghost var before := log;
      var e := RecordExecution(s, operation, result);
      assert log[..|log|-1] == before;
      AppendedOne(old(history), before, e);
      TrimKeepsWaiting(old(history) + [e]);
      WaitingSplit(old(history), [e]);
      assert Waiting([e]) == if Active(result) then [e] else [];
      AdvanceSchedule(s, e, now);
    }

    lemma KeyIsId(id: Id)
      requires Valid() && id in schedules
      ensures schedules[id].id == id
    {
    }

    lemma KeysAreIds()
      requires Valid()
      ensures forall id <- schedules :: schedules[id].id == id
    {
    }

    /** Records and advances every schedule of a list, all with the same result. */
    method RecordAll(due: seq<Schedule>, operation: Option<Id>, result: Result, now: int)
      requires Valid() && clock == now
      requires forall k :: 0 <= k < |due| ==>
        due[k].id in schedules && schedules[due[k].id] == due[k] && Due(due[k], now)
      requires forall j, k :: 0 <= j < k < |due| ==> due[j].id != due[k].id
      requires Active(result) ==> operation.Some? && Pending(producers, operation.value)
      modifies this`history, this`schedules, this`records, this`log
      ensures Valid() && schedules.Keys == old(schedules).Keys
      ensures |log| == |old(log)| + |due| && old(log) <= log
      ensures history == Appended(old(history), log[|old(log)|..])
      ensures forall k :: 0 <= k < |due| ==>
        due[k].nextRun.Some? && log[|old(log)| + k] == RecordOf(|old(log)| + k, due[k], operation, result)
      ensures forall k :: 0 <= k < |due| ==> Moved(next, due[k], schedules[due[k].id], now)
      ensures forall id <- schedules :: (forall k :: 0 <= k < |due| ==> due[k].id != id) ==>
        schedules[id] == old(schedules)[id]
    {
      hide Valid, SchedulesAhead, WarnedOnce, Reconciled, FromLog, Moved, Waiting, Trimmed, Appended;
      AppendedNothing(history, log);
      for i := 0 to |due|
        invariant Valid() && schedules.Keys == old(schedules).Keys
        invariant |log| == |old(log)| + i && old(log) <= log
        invariant history == Appended(old(history), log[|old(log)|..])
        invariant forall k :: 0 <= k < i ==>
          due[k].nextRun.Some? && log[|old(log)| + k] == RecordOf(|old(log)| + k, due[k], operation, result)
        invariant forall k :: 0 <= k < i ==> Moved(next, due[k], schedules[due[k].id], now)
        invariant forall id <- schedules :: (forall k :: 0 <= k < i ==> due[k].id != id) ==>
          schedules[id] == old(schedules)[id]
      {
        ghost var h, l := history, log;
        RecordAndAdvance(due[i], operation, result, now);
        AppendedMore(old(history), h, history, old(log), l, log);
      }
    }

    /** What skipping makes of one schedule. */
    predicate SkippedIfDue(s: Schedule, t: Schedule, log: seq<Execution>, from: nat, now: int) {
      if Due(s, now) then Moved(next, s, t, now) && RecordedIn(log, from, s, None, Skipped) else t == s
    }

    lemma SkippedForGood(s: Schedule, t: Schedule, log1: seq<Execution>, log2: seq<Execution>, from1: nat, from2: nat,
        now: int)
      requires SkippedIfDue(s, t, log1, from1, now) && log1 <= log2 && from2 <= from1
      ensures SkippedIfDue(s, t, log2, from2, now)
    {
    }

    method SkipOne(id: Id, now: int)
      requires Valid() && clock == now && id in schedules
      modifies this`history, this`schedules, this`records, this`log
      ensures Valid() && schedules.Keys == old(schedules).Keys && old(log) <= log
      ensures forall other <- schedules :: other != id ==> schedules[other] == old(schedules)[other]
      ensures history == Appended(old(history), log[|old(log)|..])
      ensures SkippedIfDue(old(schedules)[id], schedules[id], log, |old(log)|, now)
      ensures forall i :: |old(log)| <= i < |log| ==> log[i].result == Skipped
    {
      hide SchedulesAhead, WarnedOnce, Reconciled, FromLog, Moved, Waiting, Trimmed, Appended;
      AppendedNothing(history, log);
      var s := schedules[id];
      if !Due(s, now) { return; }
      KeyIsId(id);
      RecordAndAdvance(s, None, Skipped, now);
      assert log[|log|-1] == RecordOf(|log|-1, s, None, Skipped);
    }

    /** Skips whatever is due: the server is stopped, being deleted or gone. */
    method SkipDue(ids: seq<Id>, now: int)
      requires Valid() && clock == now && DistinctIds(ids)
      modifies this`history, this`schedules, this`records, this`log
      ensures Valid() && schedules.Keys == old(schedules).Keys && old(log) <= log
      ensures forall id <- schedules :: id !in ids ==> schedules[id] == old(schedules)[id]
      ensures forall id <- schedules :: id in ids ==>
        SkippedIfDue(old(schedules)[id], schedules[id], log, |old(log)|, now)
      ensures forall i :: |old(log)| <= i < |log| ==> log[i].result == Skipped
      ensures history == Appended(old(history), log[|old(log)|..])
    {
      hide Valid, SchedulesAhead, WarnedOnce, Reconciled, FromLog, SkippedIfDue, Waiting, Trimmed, Appended;
      AppendedNothing(history, log);
      for i := 0 to |ids|
        invariant Valid() && schedules.Keys == old(schedules).Keys && old(log) <= log
        invariant history == Appended(old(history), log[|old(log)|..])
        invariant forall id <- schedules :: id !in ids[..i] ==> schedules[id] == old(schedules)[id]
        invariant forall id <- schedules :: id in ids[..i] ==>
          SkippedIfDue(old(schedules)[id], schedules[id], log, |old(log)|, now)
        invariant forall i :: |old(log)| <= i < |log| ==> log[i].result == Skipped
      {
        var id := ids[i];
        assert ids[..i+1] == ids[..i] + [id] && id !in ids[..i];
        if id in schedules {
          ghost var before, h := log, history;
          SkipOne(id, now);
          AppendedMore(old(history), h, history, old(log), before, log);
          forall other | other in schedules && other in ids[..i+1]
            ensures SkippedIfDue(old(schedules)[other], schedules[other], log, |old(log)|, now)
          {
            if other == id {
              SkippedForGood(old(schedules)[id], schedules[id], log, log, |before|, |old(log)|, now);
            } else {
              SkippedForGood(old(schedules)[other], schedules[other], before, log, |old(log)|, |old(log)|, now);
            }
          }
        }
      }
      assert ids[..|ids|] == ids;
    }

    // ---- restarts ----

    /** Reserves the one pending restart of a server. */
    method ReserveRestart(server: Id, op: Id, now: int) returns (ok: bool)
      requires Valid() && clock == now && op !in issued
      modifies this`producers, this`servers, this`issued
      ensures Valid()
      ensures ok <==> server in servers && old(GetProducer(server)).restart.None?
      ensures !ok ==> producers == old(producers) && servers == old(servers)
      ensures ok ==> producers == old(producers)[server := old(GetProducer(server)).(restart :=
                       Some(Restart(op, old(GetProducer(server)).runtime, now, false)))]
      ensures ok ==> Pending(producers, op) && issued == old(issued) + {op}
      ensures ok ==> servers == old(servers)[server := Server(Starting, NoSource, Some(op))]
    {
      var p := GetProducer(server);
      if server !in servers || p.restart.Some? { return false; }
      p := p.(restart := Some(Restart(op, p.runtime, now, false)));
      ReserveKeepsReconciled(history, producers, announced, issued, orphaned, server, p);
      producers := producers[server := p];
      servers := servers[server := Server(Starting, NoSource, Some(op))];
      issued := issued + {op};
      ok := true;
    }

    /** The schedule remembers the result of its latest occurrence. */
    method UpdateScheduleResult(e: Execution)
      requires SchedulesAhead(schedules, log, clock) && WarnedOnce(schedules, warned, usedIds)
      modifies this`schedules
      ensures SchedulesAhead(schedules, log, clock) && WarnedOnce(schedules, warned, usedIds)
      ensures schedules == Report(old(schedules), e)
    {
      if e.schedule !in schedules { return; }
      var s := schedules[e.schedule];
      if s.lastAt.None? || s.lastAt.value <= e.at {
        var t := s.(lastAt := Some(e.at), lastResult := Some(e.result), lastOperation := e.operation);
        StoreKeepsAhead(schedules, log, clock, clock, t);
        StoreKeepsWarned(schedules, warned, usedIds, t);
        assert usedIds + {t.id} == usedIds;
        schedules := schedules[e.schedule := t];
      }
    }

    /** Gives every waiting entry of an operation its result. */
    method FinishOccurrences(op: Id, result: Result)
      requires SchedulesAhead(schedules, log, clock) && WarnedOnce(schedules, warned, usedIds)
      modifies this`history, this`schedules
      ensures SchedulesAhead(schedules, log, clock) && WarnedOnce(schedules, warned, usedIds)
      ensures history == Trimmed(FinishAll(old(history), op, result))
      ensures AllSameButLast(old(schedules), schedules)
      ensures schedules == ReportAll(old(schedules), Outcomes(old(history), op, result))
    {
      hide SchedulesAhead, WarnedOnce, Report, ReportAll, Outcomes, AllSameButLast, Trimmed;
      ghost var was := history;
      NothingReported(schedules, op, result);
      assert was[..0] == [];
      var i := 0;
      while i < |history|
        invariant 0 <= i <= |history| == |old(history)|
        invariant SchedulesAhead(schedules, log, clock) && WarnedOnce(schedules, warned, usedIds)
        invariant schedules == ReportAll(old(schedules), Outcomes(was[..i], op, result))
        invariant forall j :: 0 <= j < i ==> history[j] == Finished(old(history)[j], op, result)
        invariant forall j :: i <= j < |history| ==> history[j] == old(history)[j]
      {
        var e := history[i];
        OneMoreOutcome(was, i, op, result, old(schedules));
        if e.operation == Some(op) && Active(e.result) {
          history := history[i := e.(result := result)];
          UpdateScheduleResult(history[i]);
        }
        i := i + 1;
      }
      assert was[..|was|] == was;
      assert history == FinishAll(old(history), op, result);
      ReportsChangeSummaries(old(schedules), Outcomes(was, op, result));
      TrimHistory();
    }

    /** Ends the pending restart of a server: one announcement, and in the same step the result of
        every entry that waited for it. */
    method Announce(server: Id, p: Producer, completed: bool)
      requires Valid() && server in producers && producers[server].restart.Some?
      requires p.restart.None?
      modifies this`history, this`schedules, this`producers, this`announced
      ensures Valid()
      ensures announced == old(announced) + [Announcement(old(producers)[server].restart.value.id, completed)]
      ensures producers == old(producers)[server := p]
      ensures history == Trimmed(FinishAll(old(history), old(producers)[server].restart.value.id,
                                           if completed then Completed else Failed))
      ensures AllSameButLast(old(schedules), schedules)
      ensures schedules == ReportAll(old(schedules), Outcomes(old(history), old(producers)[server].restart.value.id,
                                                              if completed then Completed else Failed))
    {
      hide SchedulesAhead, WarnedOnce, Reconciled, FromLog;
      var op := producers[server].restart.value.id;
      var result := if completed then Completed else Failed;
      var a := Announcement(op, completed);
      AnnounceKeepsReconciled(history, producers, announced, issued, orphaned, server, p, a, result);
      TrimKeepsReconciled(FinishAll(history, op, result), producers[server := p], announced + [a], issued, orphaned);
      FromLogFinishes(history, log, op, result);
      FromLogTrims(FinishAll(history, op, result), log);
      FinishOccurrences(op, result);
      announced := announced + [a];
      producers := producers[server := p];
    }

    /** The restart command failed: its outcome is unknown and the entries keep waiting. */
    method CommandUncertain(server: Id, op: Id)
      requires Valid()
      modifies this`history, this`schedules, this`producers
      ensures Valid()
      ensures var r := old(GetProducer(server)).restart;
        if r.Some? && r.value.id == op then
          && producers == old(producers)[server :=
               old(producers)[server].(restart := Some(r.value.(uncertain := true)))]
          && history == Trimmed(FinishAll(old(history), op, Uncertain))
          && schedules == ReportAll(old(schedules), Outcomes(old(history), op, Uncertain))
        else producers == old(producers) && history == old(history) && schedules == old(schedules)
      ensures AllSameButLast(old(schedules), schedules)
    {
      hide SchedulesAhead, WarnedOnce, Reconciled, FromLog;
      var p := GetProducer(server);
      if p.restart.Some? && p.restart.value.id == op {
        var q := p.(restart := Some(p.restart.value.(uncertain := true)));
        RewriteKeepsReconciled(history, producers, announced, issued, orphaned, server, q);
        producers := producers[server := q];
        UncertainKeepsReconciled(history, producers, announced, issued, orphaned, op);
        TrimKeepsReconciled(FinishAll(history, op, Uncertain), producers, announced, issued, orphaned);
        FromLogFinishes(history, log, op, Uncertain);
        FromLogTrims(FinishAll(history, op, Uncertain), log);
        FinishOccurrences(op, Uncertain);
      }
    }

    /** The demo dispatch completes the operation at once if it is still the pending one. */
    method DemoDispatch(server: Id, op: Id)
      requires Valid()
      modifies this`history, this`schedules, this`producers, this`announced, this`servers
      ensures Valid()
      ensures var r := old(GetProducer(server)).restart;
        r.Some? && r.value.id == op ==>
          && announced == old(announced) + [Announcement(op, true)]
          && producers == old(producers)[server := old(producers)[server].(restart := None)]
          && history == Trimmed(FinishAll(old(history), op, Completed))
          && schedules == ReportAll(old(schedules), Outcomes(old(history), op, Completed))
          && servers == old(servers)[server := Server(Online, NoSource, None)]
      ensures var r := old(GetProducer(server)).restart;
        !(r.Some? && r.value.id == op) ==>
          && announced == old(announced) && producers == old(producers) && history == old(history)
          && schedules == old(schedules) && servers == old(servers)
    {
      var p := GetProducer(server);
      if p.restart.None? || p.restart.value.id != op { return; }
      Announce(server, p.(restart := None), true);
      servers := servers[server := Server(Online, NoSource, None)];
    }

    // ---- observations ----

    /** An observed stop or start of the workload, unless the operator stopped it. */
    method PersistObservedStatus(server: Id, o: Observation)
      requires server in servers
      modifies this`servers
      ensures servers == old(servers)[server := ServerWith(old(servers)[server], o.status)]
    {
      var current := servers[server];
      if o.status.None? || o.status == Some(Unknown) { return; }
      if current.status == Deleting || current.status == Stale { return; }
      if o.status == Some(Stopped) {
        if current.status == Stopped && current.source != Observed { return; }
        current := current.(status := Stopped, source := Observed);
      } else if current.status == Stopped {
        if current.source != Observed { return; }
        current := current.(status := o.status.value, source := NoSource);
      } else {
        return;
      }
      servers := servers[server := current];
    }

    /** Whether an observation is taken into account at all. */
    predicate Counts(server: Id, o: Observation, now: int)
      reads this
    {
      && server in servers && server !in deletions
      && !(servers[server].status == Stopped && servers[server].source != Observed)
      && (GetProducer(server).lastAt.Some? ==> GetProducer(server).lastAt.value < o.at)
      && now - o.at <= TELEMETRY_MAX_AGE && o.at <= now
    }

    /** Weighs one observation against the pending restart of its server. */
    method ReconcileRestart(server: Id, o: Observation)
      requires Valid() && server in servers && server in producers && producers[server].restart.Some?
      modifies this`history, this`schedules, this`producers, this`announced, this`servers
      ensures Valid()
      ensures var p, r := old(producers)[server], old(producers)[server].restart.value;
        var result := if Replaced(r, o) then Completed else Failed;
        r.requestedAt < o.at && (Replaced(r, o) || TimedOut(r, o)) ==>
          && announced == old(announced) + [Announcement(r.id, Replaced(r, o))]
          && producers == old(producers)[server :=
               p.(restart := None, runtime := if Replaced(r, o) then o.runtime else p.runtime)]
          && history == Trimmed(FinishAll(old(history), r.id, result))
          && schedules == ReportAll(old(schedules), Outcomes(old(history), r.id, result))
          && servers == old(servers)[server :=
               if Replaced(r, o) then old(servers)[server].(status := Online, source := NoSource)
               else old(servers)[server].(status := Attention)]
      ensures var r := old(producers)[server].restart.value;
        !(r.requestedAt < o.at && (Replaced(r, o) || TimedOut(r, o))) ==>
          && announced == old(announced) && producers == old(producers) && history == old(history)
          && schedules == old(schedules) && servers == old(servers)
    {
      var p := producers[server];
      var r := p.restart.value;
      if o.at <= r.requestedAt { return; }
      if Replaced(r, o) {
        Announce(server, p.(restart := None, runtime := o.runtime), true);
        servers := servers[server := servers[server].(status := Online, source := NoSource)];
      } else if TimedOut(r, o) {
        Announce(server, p.(restart := None), false);
        servers := servers[server := servers[server].(status := Attention)];
      }
    }

    /** Whether an observation settles the pending restart of its server. */
    predicate Settles(server: Id, o: Observation, now: int)
      reads this
    {
      && Counts(server, o, now) && StatusWith(servers[server], o.status) != Stopped
      && var r := GetProducer(server).restart;
      && r.Some? && r.value.requestedAt < o.at && (Replaced(r.value, o) || TimedOut(r.value, o))
    }

    /** The restart side of one observation: it announces an outcome exactly when it settles the restart,
        and changes neither history nor summaries otherwise. */
    method Observe(server: Id, o: Observation, now: int)
      requires Valid() && clock <= now
      modifies this`history, this`schedules, this`producers, this`announced, this`servers, this`clock
      ensures Valid() && clock == now
      ensures !old(Counts(server, o, now)) ==> producers == old(producers) && servers == old(servers)
      ensures old(Counts(server, o, now)) ==>
        var p := old(GetProducer(server));
        var running := old(StatusWith(servers[server], o.status)) != Stopped;
        producers == old(producers)[server := Producer(Some(o.at),
          if running && (p.restart.None? || (old(Settles(server, o, now)) && Replaced(p.restart.value, o)))
            then o.runtime else p.runtime,
          if old(Settles(server, o, now)) then None else p.restart)]
      ensures old(Settles(server, o, now)) ==>
        var r := old(GetProducer(server)).restart.value;
        var result := if Replaced(r, o) then Completed else Failed;
        && announced == old(announced) + [Announcement(r.id, Replaced(r, o))]
        && history == Trimmed(FinishAll(old(history), r.id, result))
        && schedules == ReportAll(old(schedules), Outcomes(old(history), r.id, result))
        && servers == old(servers)[server :=
             var s := ServerWith(old(servers)[server], o.status);
             if Replaced(r, o) then s.(status := Online, source := NoSource) else s.(status := Attention)]
      ensures !old(Settles(server, o, now)) ==>
        announced == old(announced) && history == old(history) && schedules == old(schedules)
      ensures old(Counts(server, o, now)) && !old(Settles(server, o, now)) ==>
        servers == old(servers)[server := ServerWith(old(servers)[server], o.status)]
    {
      hide SchedulesAhead, WarnedOnce, Reconciled, FromLog, Trimmed, Replaced, TimedOut, ReportAll, FinishAll, Outcomes,
        ServerWith, StatusWith;
      Tick(now);
      if !Counts(server, o, now) { return; }
      var p := GetProducer(server).(lastAt := Some(o.at));
      StatusSeen(servers[server], o.status);
      PersistObservedStatus(server, o);
      if p.restart.None? && !IsStopped(server) { p := p.(runtime := o.runtime); }
      RewriteKeepsReconciled(history, producers, announced, issued, orphaned, server, p);
      producers := producers[server := p];
      if p.restart.Some? && !IsStopped(server) { ReconcileRestart(server, o); }
    }

    /** The operator stops a server; refused while a restart is pending. */
    method PersistStop(server: Id) returns (ok: bool)
      requires Valid() && server in servers
      modifies this`servers
      ensures Valid()
      ensures ok <==> GetProducer(server).restart.None?
      ensures ok ==> servers == old(servers)[server := old(servers)[server].(status := Stopped, source := Operator)]
      ensures !ok ==> servers == old(servers)
    {
      if GetProducer(server).restart.Some? { return false; }
      servers := servers[server := servers[server].(status := Stopped, source := Operator)];
      ok := true;
    }

    method PersistStart(server: Id) returns (started: bool)
      requires Valid() && server in servers
      modifies this`servers
      ensures Valid()
      ensures started <==> old(servers)[server].status == Stopped
      ensures servers == if started
        then old(servers)[server := old(servers)[server].(status := Starting, source := NoSource)]
                         else old(servers)
    {
      if servers[server].status != Stopped { return false; }
      servers := servers[server := servers[server].(status := Starting, source := NoSource)];
      started := true;
    }

    // ---- saving and deleting schedules ----

    /** The schedule a save would store, or none when it has no next run. */
    function Candidate(before: Option<Schedule>, freshId: Id, def: Definition, enabled: bool, now: int)
      : Option<Schedule>
    {
      var old_ := if before.Some? then before.value
                  else Schedule(freshId, def, enabled, 0, None, None, None, None, None, None);
      var timing := before.Some? && old_.def.server == def.server && old_.def.timing == def.timing;
      var warning := before.Some? && old_.def.warningMinutes == def.warningMinutes;
      var revision := if before.None? then 1
                      else if !timing || !warning || old_.enabled != enabled then old_.revision + 1 else old_.revision;
      var resetAnchor := !timing || (!old_.enabled && enabled);
      var anchor := if !isInterval(def.timing) then None
                    else if resetAnchor || old_.anchor.None? then Some(now) else old_.anchor;
      var n := next(def.timing, anchor, now);
      if n.None? then None
      else Some(old_.(def := def, enabled := enabled, revision := revision, anchor := anchor,
                      nextRun := if !enabled then None else if !timing || old_.nextRun.None? then n else old_.nextRun))
    }

    /** The anchor after a save: none but for intervals; the time of the save for a new schedule, a changed
        server or timing, a schedule enabled again, or one without an anchor; else the one it had. */
    predicate Anchored(before: Option<Schedule>, anchor: Option<int>, def: Definition, enabled: bool, now: int) {
      if !isInterval(def.timing) then anchor == None
      else if before.None? || before.value.anchor == None then anchor == Some(now)
      else if before.value.def.server != def.server || before.value.def.timing != def.timing then anchor == Some(now)
      else if !before.value.enabled && enabled then anchor == Some(now)
      else anchor == before.value.anchor
    }

    /** What a save owes: the definition and the flag as given, the anchor above, the next run computed from
        them for an enabled schedule that is new, changed or had none, and everything else kept. */
    predicate SavedAs(before: Option<Schedule>, t: Schedule, def: Definition, enabled: bool, now: int) {
      && t.def == def && t.enabled == enabled && Anchored(before, t.anchor, def, enabled, now)
      && (if !enabled then t.nextRun == None
          else if before.Some? && before.value.nextRun != None && before.value.def.server == def.server
                  && before.value.def.timing == def.timing then t.nextRun == before.value.nextRun
          else t.nextRun != None && t.nextRun == next(def.timing, t.anchor, now))
      && if before.None? then
           (t.revision, t.lastWarning, t.lastAt, t.lastResult, t.lastOperation) == (1, None, None, None, None)
         else
           var s := before.value;
           && t.revision == s.revision + (if s.def == def && s.enabled == enabled then 0 else 1) && t.id == s.id
           && (t.lastWarning, t.lastAt, t.lastResult, t.lastOperation) ==
                (s.lastWarning, s.lastAt, s.lastResult, s.lastOperation)
    }

    lemma CandidateIsSavedAs(before: Option<Schedule>, freshId: Id, def: Definition, enabled: bool, now: int)
      ensures var c := Candidate(before, freshId, def, enabled, now);
        && (c.Some? ==> SavedAs(before, c.value, def, enabled, now))
        && (c.None? <==> forall anchor ::
              Anchored(before, anchor, def, enabled, now) ==> next(def.timing, anchor, now).None?)
    {
      var c := Candidate(before, freshId, def, enabled, now);
      if anchor :| Anchored(before, anchor, def, enabled, now) {
        assert c.None? <==> next(def.timing, anchor, now).None?;
        assert forall other :: Anchored(before, other, def, enabled, now) ==> other == anchor;
      }
    }

    /** An edit that changes the timing, the warning or the enabled flag is a new revision; one that
        changes neither timing nor flag keeps the next run and the anchor; whatever else is enabled
        gets a next run after now. So a save only moves a schedule forward. */
    lemma CandidateMovesForward(s: Schedule, freshId: Id, def: Definition, enabled: bool, now: int)
      requires Later(next) && (s.enabled <==> s.nextRun.Some?)
      requires Candidate(Some(s), freshId, def, enabled, now).Some?
      ensures var t := Candidate(Some(s), freshId, def, enabled, now).value;
        && Forward(s, t) && t.id == s.id && (t.enabled <==> t.nextRun.Some?)
        && (t.revision == s.revision <==> s.def == def && s.enabled == enabled)
        && (t.nextRun.Some? ==> now < t.nextRun.value || t.nextRun == s.nextRun)
        && (t.revision == s.revision ==> t.nextRun == s.nextRun)
        && (enabled && s.def.server == def.server && s.def.timing == def.timing && s.enabled ==> t.nextRun == s.nextRun)
    {
    }

    /** The target server exists and is not being deleted. */
    predicate Welcome(def: Definition)
      reads this`servers, this`deletions
    {
      def.server in servers && def.server !in deletions
    }

    /** Creates (`id` absent) or edits a schedule; each refusal has its one reason. */
    method SaveReboot(id: Option<Id>, freshId: Id, def: Definition, enabled: bool, now: int)
      returns (outcome: SaveOutcome)
      requires Valid() && clock <= now && freshId !in usedIds
      modifies this`schedules, this`usedIds, this`clock
      ensures Valid() && clock == now
      ensures !outcome.Saved? ==> schedules == old(schedules)
      ensures outcome.NoServer? <==> def.server !in servers
      ensures outcome.BeingDeleted? <==> def.server in servers && def.server in deletions
      ensures outcome.TooMany? <==> Welcome(def) && id.None? && |old(schedules)| >= MAX_SCHEDULES
      ensures outcome.NotFound? <==> Welcome(def) && id.Some? && id.value !in old(schedules)
      ensures outcome.NoNextRun? <==>
        && Welcome(def) && (if id.None? then |old(schedules)| < MAX_SCHEDULES else id.value in old(schedules))
        && forall anchor ::
             Anchored(if id.Some? then Some(old(schedules)[id.value]) else None, anchor, def, enabled, now) ==>
               next(def.timing, anchor, now).None?
      ensures outcome.Saved? ==>
        && outcome.id == (if id.Some? then id.value else freshId)
        && (id.Some? ==> id.value in old(schedules)) && (id.None? ==> |old(schedules)| < MAX_SCHEDULES)
        && def.server in servers && def.server !in deletions
      ensures outcome.Saved? ==>
        var before := if id.Some? then Some(old(schedules)[id.value]) else None;
        && outcome.id in schedules && schedules[outcome.id].id == outcome.id
        && schedules == old(schedules)[outcome.id := schedules[outcome.id]]
        && SavedAs(before, schedules[outcome.id], def, enabled, now)
    {
      hide SchedulesAhead, WarnedOnce, Reconciled, FromLog, SavedAs, Anchored, Candidate;
      Tick(now);
      if def.server !in servers { return NoServer; }
      if def.server in deletions { return BeingDeleted; }
      if id.None? && |schedules| >= MAX_SCHEDULES { return TooMany; }
      if id.Some? && id.value !in schedules { return NotFound; }
      if id.Some? { KeyIsId(id.value); }
      var before := if id.Some? then Some(schedules[id.value]) else None;
      var candidate := Candidate(before, freshId, def, enabled, now);
      CandidateIsSavedAs(before, freshId, def, enabled, now);
      if candidate.None? { return NoNextRun; }
      Store(before, candidate.value, freshId, def, enabled, now);
      outcome := Saved(candidate.value.id);
    }

    method Store(before: Option<Schedule>, candidate: Schedule, freshId: Id, def: Definition, enabled: bool, now: int)
      requires Valid() && clock == now && freshId !in usedIds
      requires before.Some? ==> before.value.id in schedules && schedules[before.value.id] == before.value
      requires Candidate(before, freshId, def, enabled, now) == Some(candidate)
      modifies this`schedules, this`usedIds
      ensures Valid() && schedules == old(schedules)[candidate.id := candidate]
      ensures candidate.id == if before.Some? then before.value.id else freshId
    {
      if before.Some? { CandidateMovesForward(before.value, freshId, def, enabled, now); }
      StoreKeepsAhead(schedules, log, clock, now, candidate);
      StoreKeepsWarned(schedules, warned, usedIds, candidate);
      schedules := schedules[candidate.id := candidate];
      usedIds := usedIds + {candidate.id};
    }

    method DeleteReboot(id: Id) returns (found: bool)
      requires Valid()
      modifies this`schedules
      ensures Valid() && found == (id in old(schedules)) && schedules == old(schedules) - {id}
    {
      found := id in schedules;
      ForgetKeepsAhead(schedules, schedules - {id}, log, clock, clock);
      schedules := schedules - {id};
    }

    /** An observation is taken into account for a server that exists, is not being deleted and was not stopped by
        the operator, if it is newer than the last one, not from the future and at most 45 seconds old. */
    lemma CountsIs(server: Id, o: Observation, now: int)
      ensures Counts(server, o, now) <==>
        && server in servers && server !in deletions
        && (servers[server].status == Stopped ==> servers[server].source == Observed)
        && (server in producers && producers[server].lastAt != None ==> producers[server].lastAt.value < o.at)
        && 0 <= now - o.at <= 45_000_000_000
    {
    }

    /** A restart is settled by a healthy runtime other than the old one, marked with the operation and started no
        earlier than the second it was requested in, or after five minutes by any reading. */
    lemma SettlesIs(server: Id, o: Observation, now: int)
      requires Counts(server, o, now) && server in producers && producers[server].restart != None
      ensures var r := producers[server].restart.value;
        var replaced := o.health == Healthy && o.runtime != NO_RUNTIME && o.runtime != r.runtime
          && o.operation == Some(r.id) && o.runtimeStarted >= r.requestedAt - r.requestedAt % 1_000_000_000;
        && (Replaced(r, o) <==> replaced)
        && (Settles(server, o, now) <==>
              && ServerWith(servers[server], o.status).status != Stopped && r.requestedAt < o.at
              && (replaced || (o.at - r.requestedAt >= 300_000_000_000 && o.health != NoReading)))
    {
    }

    // ---- claiming ----

    function Attachable(s: Schedule, now: int): bool {
      Due(s, now) && !Late(s, now) && parses(s.def.timing)
    }

    method CountActive() returns (count: nat)
      ensures count == |Waiting(history)|
    {
      count := 0;
      var i := |history|;
      while i > 0
        invariant 0 <= i <= |history| && count == |Waiting(history[i..])|
      {
        i := i - 1;
        assert history[i..][0] == history[i] && history[i..][1..] == history[i+1..];
        if Active(history[i].result) { count := count + 1; }
      }
      assert history[0..] == history;
    }

    /** What sorting a schedule out makes of it. */
    predicate Triaged(s: Schedule, t: Schedule, log: seq<Execution>, from: nat, now: int) {
      if !Due(s, now) || Attachable(s, now) then t == s
      else if Late(s, now) then Moved(next, s, t, now) && RecordedIn(log, from, s, None, Missed)
      else t == s.(enabled := false, nextRun := None, lastResult := Some(Skipped))
    }

    /** A run more than a minute late is recorded as missed, one that no longer parses is disabled. */
    method TriageOne(id: Id, now: int) returns (attach: bool)
      requires Valid() && clock == now && id in schedules
      modifies this`history, this`schedules, this`records, this`log
      ensures Valid() && schedules.Keys == old(schedules).Keys && old(log) <= log
      ensures forall other <- schedules :: other != id ==> schedules[other] == old(schedules)[other]
      ensures Triaged(old(schedules)[id], schedules[id], log, |old(log)|, now)
      ensures forall i :: |old(log)| <= i < |log| ==> log[i].result == Missed
      ensures history == Appended(old(history), log[|old(log)|..])
      ensures attach <==> Attachable(schedules[id], now)
      ensures schedules[id].id == id
    {
      hide Appended;
      AppendedNothing(history, log);
      var s := schedules[id];
      KeyIsId(id);
      if !Due(s, now) { return false; }
      if Late(s, now) {
        RecordAndAdvance(s, None, Missed, now);
        assert log[|log|-1] == RecordOf(|log|-1, s, None, Missed);
        MovedIsNotDue(s, schedules[id], now);
        return false;
      }
      if !parses(s.def.timing) {
        Disable(s);
        return false;
      }
      attach := true;
    }

    /** `due` lists exactly the listed schedules that one restart may serve, each once. */
    predicate Serves(due: seq<Schedule>, ids: seq<Id>, schedules: map<Id, Schedule>, now: int) {
      && (forall k :: 0 <= k < |due| ==>
            due[k].id in schedules && schedules[due[k].id] == due[k] && Attachable(due[k], now) && due[k].id in ids)
      && (forall j, k :: 0 <= j < k < |due| ==> due[j].id != due[k].id)
      && (forall id <- schedules :: id in ids && Attachable(schedules[id], now) ==> schedules[id] in due)
    }

    lemma ServesOneMore(due: seq<Schedule>, ids: seq<Id>, before: map<Id, Schedule>, after: map<Id, Schedule>, id: Id,
        now: int)
      requires Serves(due, ids, before, now) && id !in ids && before.Keys == after.Keys
      requires forall other <- after :: other != id ==> after[other] == before[other]
      requires id in after ==> after[id].id == id
      ensures var more := id in after && Attachable(after[id], now);
        Serves(if more then due + [after[id]] else due, ids + [id], after, now)
    {
      hide Attachable;
      forall k | 0 <= k < |due| ensures due[k].id != id { assert due[k].id in ids; }
    }

    /** Sorts the listed schedules out; what remains is to be attached to one restart. */
    method Triage(ids: seq<Id>, now: int) returns (due: seq<Schedule>)
      requires Valid() && clock == now && DistinctIds(ids)
      modifies this`history, this`schedules, this`records, this`log
      ensures Valid() && schedules.Keys == old(schedules).Keys && old(log) <= log
      ensures forall id <- schedules :: id !in ids ==> schedules[id] == old(schedules)[id]
      ensures forall id <- schedules :: id in ids ==> Triaged(old(schedules)[id], schedules[id], log, |old(log)|, now)
      ensures forall i :: |old(log)| <= i < |log| ==> log[i].result == Missed
      ensures history == Appended(old(history), log[|old(log)|..])
      ensures Serves(due, ids, schedules, now)
    {
      hide Valid, SchedulesAhead, WarnedOnce, Reconciled, FromLog, Moved, Triaged, Attachable, Waiting, Trimmed,
        Appended, Serves;
      AppendedNothing(history, log);
      due := [];
      ServesNone(now);
      assert ids[..0] == [];
      for i := 0 to |ids|
        invariant Valid() && schedules.Keys == old(schedules).Keys && old(log) <= log
        invariant history == Appended(old(history), log[|old(log)|..])
        invariant forall id <- schedules :: id !in ids[..i] ==> schedules[id] == old(schedules)[id]
        invariant forall id <- schedules :: id in ids[..i] ==>
          Triaged(old(schedules)[id], schedules[id], log, |old(log)|, now)
        invariant forall j :: |old(log)| <= j < |log| ==> log[j].result == Missed
        invariant Serves(due, ids[..i], schedules, now)
      {
        var id := ids[i];
        assert ids[..i+1] == ids[..i] + [id] && id !in ids[..i];
        ghost var before, h, mid := log, history, schedules;
        var attach := false;
        if id in schedules {
          attach := TriageOne(id, now);
          AppendedMore(old(history), h, history, old(log), before, log);
          TriageStep(old(schedules), mid, schedules, ids[..i], id, before, log, |old(log)|, now);
        }
        ServesOneMore(due, ids[..i], mid, schedules, id, now);
        if attach { due := due + [schedules[id]]; }
      }
      assert ids[..|ids|] == ids;
    }

    lemma ServesNone(now: int)
      ensures Serves([], [], schedules, now)
    {
    }

    /** Sorting out one more schedule leaves those before it as they were found. */
    lemma TriageStep(was: map<Id, Schedule>, mid: map<Id, Schedule>, after: map<Id, Schedule>, done: seq<Id>, id: Id,
                     before: seq<Execution>, log: seq<Execution>, from: nat, now: int)
      requires was.Keys == mid.Keys == after.Keys && id in was && id !in done && before <= log && from <= |before|
      requires forall other <- mid :: other in done ==> Triaged(was[other], mid[other], before, from, now)
      requires mid[id] == was[id] && Triaged(mid[id], after[id], log, |before|, now)
      requires forall other <- after :: other != id ==> after[other] == mid[other]
      ensures forall other <- after :: other in done + [id] ==> Triaged(was[other], after[other], log, from, now)
    {
    }

    lemma MovedIsNotDue(s: Schedule, t: Schedule, now: int)
      requires Valid() && Moved(next, s, t, now)
      ensures !Due(t, now)
    {
    }

    method Disable(s: Schedule)
      requires Valid() && s.id in schedules && schedules[s.id] == s
      modifies this`schedules
      ensures Valid() && schedules.Keys == old(schedules).Keys
      ensures schedules[s.id] == s.(enabled := false, nextRun := None, lastResult := Some(Skipped))
      ensures forall id <- schedules :: id != s.id ==> schedules[id] == old(schedules)[id]
    {
      var t := s.(enabled := false, nextRun := None, lastResult := Some(Skipped));
      StoreKeepsAhead(schedules, log, clock, clock, t);
      StoreKeepsWarned(schedules, warned, usedIds, t);
      assert usedIds + {t.id} == usedIds;
      schedules := schedules[s.id := t];
    }

    /** The schedules of a group that one restart may serve. */
    function ToAttach(ids: seq<Id>, schedules: map<Id, Schedule>, now: int): set<Id> {
      set id | id in ids && id in schedules && Attachable(schedules[id], now)
    }

    lemma {:induction false} DueCount(due: seq<Schedule>)
      requires forall j, k :: 0 <= j < k < |due| ==> due[j].id != due[k].id
      ensures |set s | s in due :: s.id| == |due|
      decreases |due|
    {
      if due != [] {
        var last, rest := due[|due|-1], due[..|due|-1];
        DueCount(rest);
        assert forall s :: s in due <==> s in rest || s == last;
        assert (set s | s in due :: s.id) == (set s | s in rest :: s.id) + {last.id};
      }
    }

    lemma TriagedKeepsAttachable(s: Schedule, t: Schedule, log: seq<Execution>, from: nat, now: int)
      requires Later(next) && Triaged(s, t, log, from, now)
      ensures Attachable(t, now) <==> Attachable(s, now)
      ensures Attachable(s, now) ==> t == s
    {
    }

    /** How one listed schedule fares when its group is claimed for a server that may be restarted. */
    predicate Claimed(s: Schedule, t: Schedule, log: seq<Execution>, from: nat, restart: Option<Id>, now: int) {
      if Attachable(s, now)
      then Moved(next, s, t, now) && RecordedIn(log, from, s, restart, if restart.Some? then Awaiting else Skipped)
      else Triaged(s, t, log, from, now)
    }

    lemma AttachedIsClaimed(s: Schedule, t: Schedule, log: seq<Execution>, from: nat, i: nat, restart: Option<Id>,
        now: int)
      requires Attachable(s, now) && Moved(next, s, t, now) && from <= i < |log|
      requires log[i] == RecordOf(i, s, restart, if restart.Some? then Awaiting else Skipped)
      ensures Claimed(s, t, log, from, restart, now)
    {
    }

    lemma TriagedIsClaimed(s: Schedule, t: Schedule, log1: seq<Execution>, log2: seq<Execution>, from: nat,
                           restart: Option<Id>, now: int)
      requires !Attachable(s, now) && Triaged(s, t, log1, from, now) && log1 <= log2
      ensures Claimed(s, t, log2, from, restart, now)
    {
    }

    lemma ServedAreDue(due: seq<Schedule>, ids: seq<Id>, now: int)
      requires Serves(due, ids, schedules, now)
      ensures forall k :: 0 <= k < |due| ==>
        due[k].id in schedules && schedules[due[k].id] == due[k] && Due(due[k], now) && due[k].id in ids
      ensures forall j, k :: 0 <= j < k < |due| ==> due[j].id != due[k].id
    {
    }

    /** Recording every schedule that is to be attached leaves each listed one claimed. */
    lemma AllClaimed(due: seq<Schedule>, ids: seq<Id>, was: map<Id, Schedule>, triaged: map<Id, Schedule>,
                     after: map<Id, Schedule>, before: seq<Execution>, log: seq<Execution>, from: nat,
                     restart: Option<Id>, now: int)
      requires Later(next) && was.Keys == triaged.Keys == after.Keys && forall id <- triaged :: triaged[id].id == id
      requires forall id <- triaged :: id in ids ==> Triaged(was[id], triaged[id], before, from, now)
      requires Serves(due, ids, triaged, now)
      requires before <= log && |log| == |before| + |due| && from <= |before|
      requires forall k :: 0 <= k < |due| ==>
        due[k].nextRun.Some? &&
        log[|before| + k] == RecordOf(|before| + k, due[k], restart, if restart.Some? then Awaiting else Skipped)
      requires forall k :: 0 <= k < |due| ==> due[k].id in after && Moved(next, due[k], after[due[k].id], now)
      requires forall id <- after :: (forall k :: 0 <= k < |due| ==> due[k].id != id) ==> after[id] == triaged[id]
      ensures forall id <- after :: id in ids ==> Claimed(was[id], after[id], log, from, restart, now)
    {
      hide Moved, Triaged, Claimed, Attachable;
      forall id | id in after && id in ids ensures Claimed(was[id], after[id], log, from, restart, now) {
        TriagedKeepsAttachable(was[id], triaged[id], before, from, now);
        if Attachable(was[id], now) {
          var k :| 0 <= k < |due| && due[k] == triaged[id];
          AttachedIsClaimed(was[id], after[id], log, from, |before| + k, restart, now);
        } else {
          assert forall k :: 0 <= k < |due| ==> due[k].id != id;
          TriagedIsClaimed(was[id], after[id], before, log, from, restart, now);
        }
      }
    }

    method AttachAll(due: seq<Schedule>, restart: Option<Id>, now: int, ghost was: map<Id, Schedule>,
        ghost ids: seq<Id>, ghost from: nat)
      requires Valid() && clock == now && was.Keys == schedules.Keys && from <= |log|
      requires forall id <- schedules :: id in ids ==> Triaged(was[id], schedules[id], log, from, now)
      requires Serves(due, ids, schedules, now)
      requires restart.Some? ==> Pending(producers, restart.value)
      modifies this`history, this`schedules, this`records, this`log
      ensures Valid() && schedules.Keys == was.Keys && old(log) <= log
      ensures forall id <- schedules :: id !in ids ==> schedules[id] == old(schedules)[id]
      ensures forall id <- schedules :: id in ids ==> Claimed(was[id], schedules[id], log, from, restart, now)
      ensures restart.None? ==> forall i :: |old(log)| <= i < |log| ==> log[i].result != Awaiting
      ensures history == Appended(old(history), log[|old(log)|..])
    {
      hide SchedulesAhead, WarnedOnce, Reconciled, FromLog, Moved, Triaged, Claimed, Waiting, Trimmed, Appended,
        Attachable, Serves, Due;
      ghost var before, triaged := log, schedules;
      ServedAreDue(due, ids, now);
      KeysAreIds();
      RecordAll(due, restart, if restart.Some? then Awaiting else Skipped, now);
      forall i | |before| <= i < |log| ensures restart.None? ==> log[i].result != Awaiting {
        var k := i - |before|;
        assert due[k].nextRun.Some? && log[|before| + k] == log[i];
      }
      AllClaimed(due, ids, was, triaged, schedules, before, log, from, restart, now);
    }

    lemma DueIsToAttach(ids: seq<Id>, due: seq<Schedule>, was: map<Id, Schedule>, from: nat, now: int)
      requires Valid() && was.Keys == schedules.Keys
      requires forall id <- schedules :: id in ids ==> Triaged(was[id], schedules[id], log, from, now)
      requires Serves(due, ids, schedules, now)
      ensures |due| == |ToAttach(ids, was, now)|
    {
      hide SchedulesAhead, WarnedOnce, Reconciled, FromLog, Triaged;
      KeysAreIds();
      forall id | id in schedules && id in ids ensures Attachable(was[id], now) <==> Attachable(schedules[id], now) {
        TriagedKeepsAttachable(was[id], schedules[id], log, from, now);
      }
      var found := set s | s in due :: s.id;
      forall id | id in ToAttach(ids, was, now) ensures id in found {
        assert schedules[id] in due;
      }
      assert found == ToAttach(ids, was, now);
      DueCount(due);
    }

    /** Claims a group for a server that may be restarted: all that are on time share one new restart,
        or are all skipped when one is already pending or too many entries wait. */
    method ClaimRunning(server: Id, ids: seq<Id>, op: Id, now: int) returns (dispatched: bool)
      requires Valid() && clock == now && op !in issued && DistinctIds(ids) && server in servers
      modifies this`history, this`schedules, this`records, this`log, this`producers, this`servers, this`issued
      ensures Valid() && schedules.Keys == old(schedules).Keys && old(log) <= log
      ensures forall id <- schedules :: id !in ids ==> schedules[id] == old(schedules)[id]
      ensures forall id <- schedules :: id in ids ==>
        Claimed(old(schedules)[id], schedules[id], log, |old(log)|, if dispatched then Some(op) else None, now)
      ensures dispatched <==> ToAttach(ids, old(schedules), now) != {} && old(GetProducer(server)).restart.None? &&
                              |Waiting(old(history))| + |ToAttach(ids, old(schedules), now)| <= MAX_ACTIVE
      ensures if dispatched
              then producers == old(producers)[server := old(GetProducer(server)).(restart :=
                                  Some(Restart(op, old(GetProducer(server)).runtime, now, false)))]
              else producers == old(producers) && forall i :: |old(log)| <= i < |log| ==> log[i].result != Awaiting
      ensures history == Appended(old(history), log[|old(log)|..])
      ensures servers == if dispatched
        then old(servers)[server := Server(Starting, NoSource, Some(op))] else old(servers)
      ensures issued == if dispatched then old(issued) + {op} else old(issued)
    {
      hide SchedulesAhead, WarnedOnce, Reconciled, FromLog, Moved, Triaged, Claimed, Attachable, SkippedIfDue, Waiting,
        Trimmed, Appended;
      var due := Triage(ids, now);
      ghost var h, l := history, log;
      AppendedWaiting(old(history), log[|old(log)|..]);
      NoneWaits(log[|old(log)|..]);
      DueIsToAttach(ids, due, old(schedules), |old(log)|, now);
      var waiting := CountActive();
      dispatched := |due| != 0 && GetProducer(server).restart.None? && waiting + |due| <= MAX_ACTIVE;
      if dispatched { var _ := ReserveRestart(server, op, now); }
      AttachAll(due, if dispatched then Some(op) else None, now, old(schedules), ids, |old(log)|);
      AppendedMore(old(history), h, history, old(log), l, log);
    }

    /** Claims the due schedules of one group. */
    method Claim(server: Id, ids: seq<Id>, op: Id, now: int) returns (dispatched: bool)
      requires Valid() && clock <= now && op !in issued && DistinctIds(ids)
      modifies this`history, this`schedules, this`records, this`log, this`producers, this`servers, this`issued,
        this`clock
      ensures Valid() && clock == now && schedules.Keys == old(schedules).Keys && old(log) <= log
      ensures forall id <- schedules :: id !in ids ==> schedules[id] == old(schedules)[id]
      ensures old(SkipsAutomatedRestarts(server)) || server !in old(servers) ==>
        && !dispatched
        && forall id <- schedules :: id in ids ==> SkippedIfDue(old(schedules)[id], schedules[id], log, |old(log)|, now)
      ensures !old(SkipsAutomatedRestarts(server)) && server in old(servers) ==>
        && (dispatched <==> ToAttach(ids, old(schedules), now) != {} && old(GetProducer(server)).restart.None? &&
                            |Waiting(old(history))| + |ToAttach(ids, old(schedules), now)| <= MAX_ACTIVE)
        && forall id <- schedules :: id in ids ==>
             Claimed(old(schedules)[id], schedules[id], log, |old(log)|, if dispatched then Some(op) else None, now)
      ensures if dispatched
              then producers == old(producers)[server := old(GetProducer(server)).(restart :=
                                  Some(Restart(op, old(GetProducer(server)).runtime, now, false)))]
              else producers == old(producers) && forall i :: |old(log)| <= i < |log| ==> log[i].result != Awaiting
      ensures history == Appended(old(history), log[|old(log)|..])
      ensures servers == if dispatched
        then old(servers)[server := Server(Starting, NoSource, Some(op))] else old(servers)
      ensures issued == if dispatched then old(issued) + {op} else old(issued)
    {
      hide SchedulesAhead, WarnedOnce, Reconciled, FromLog, Moved, Triaged, Claimed, Attachable, SkippedIfDue, Waiting,
        Trimmed, Appended;
      Tick(now);
      if SkipsAutomatedRestarts(server) || server !in servers {
        SkipDue(ids, now);
        return false;
      }
      dispatched := ClaimRunning(server, ids, op, now);
    }

    /** The record of a due run, field by field. */
    predicate OnRecord(s: Schedule, log: seq<Execution>, from: nat, operation: Option<Id>, result: Result)
      requires s.nextRun.Some?
    {
      exists i :: from <= i < |log| &&
        log[i] == Execution(i, s.id, s.revision, s.def.server, s.nextRun.value, operation, result)
    }

    /** A schedule moved on: the first run after now, or disabled; definition, revision, anchor and warning stay. */
    predicate MovedOn(s: Schedule, t: Schedule, now: int) {
      && t.nextRun == next(s.def.timing, s.anchor, now) && (t.enabled <==> t.nextRun != None)
      && (t.id, t.def, t.revision, t.anchor, t.lastWarning) == (s.id, s.def, s.revision, s.anchor, s.lastWarning)
      && t.lastAt == s.nextRun
    }

    /** Automated restarts pass over a server that is being deleted or stopped. */
    lemma SkipsAutomatedRestartsIs(id: Id)
      ensures SkipsAutomatedRestarts(id) <==> id in deletions || (id in servers && servers[id].status == Stopped)
    {
    }

    /** What a claim makes of a listed schedule: nothing before its time; a run at most a minute late joins the
        restart, or is skipped without one; a later one is missed; one that no longer parses is disabled. */
    lemma ClaimedMeans(s: Schedule, t: Schedule, log: seq<Execution>, from: nat, restart: Option<Id>, now: int)
      requires Claimed(s, t, log, from, restart, now)
      ensures if !(s.enabled && s.nextRun != None && s.nextRun.value <= now) then t == s
        else if now - s.nextRun.value > 60_000_000_000 then
          OnRecord(s, log, from, None, Missed) && MovedOn(s, t, now)
        else if parses(s.def.timing) then
          OnRecord(s, log, from, restart, if restart == None then Skipped else Awaiting) && MovedOn(s, t, now)
        else t == s.(enabled := false, nextRun := None, lastResult := Some(Skipped))
    {
    }

    lemma SkippedMeans(s: Schedule, t: Schedule, log: seq<Execution>, from: nat, now: int)
      requires SkippedIfDue(s, t, log, from, now)
      ensures if s.enabled && s.nextRun != None && s.nextRun.value <= now
        then OnRecord(s, log, from, None, Skipped) && MovedOn(s, t, now) else t == s
    {
    }

    // ---- warnings ----

    predicate InWarningWindow(s: Schedule, now: int) {
      s.enabled && s.def.warningMinutes > 0 && s.nextRun.Some? && now < s.nextRun.value &&
      s.nextRun.value - s.def.warningMinutes * MINUTE <= now
    }

    predicate WarningEligible(s: Schedule)
      reads this`servers, this`deletions, this`producers
    {
      s.def.server in servers && s.def.server !in deletions && servers[s.def.server].status != Stopped &&
      GetProducer(s.def.server).restart.None?
    }

    predicate WarnsNow(s: Schedule, now: int)
      reads this`servers, this`deletions, this`producers
    {
      InWarningWindow(s, now) && s.lastWarning != Some((s.revision, s.nextRun.value)) && WarningEligible(s)
    }

    /** A warning is due for an enabled schedule with a warning lead whose next run lies ahead by at most that
        lead and is not the one last warned of, while its server runs with no restart pending. */
    lemma WarnsNowIs(s: Schedule, now: int)
      ensures WarnsNow(s, now) <==>
        && s.enabled && s.nextRun != None && 0 < s.nextRun.value - now <= s.def.warningMinutes * 60_000_000_000
        && s.lastWarning != Some((s.revision, s.nextRun.value))
        && s.def.server in servers && s.def.server !in deletions && servers[s.def.server].status != Stopped
        && (s.def.server in producers ==> producers[s.def.server].restart == None)
    {
    }

    method WarnOne(id: Id, now: int)
      requires Valid() && id in schedules
      modifies this`schedules, this`warned
      ensures Valid() && schedules.Keys == old(schedules).Keys && old(warned) <= warned
      ensures forall other <- schedules :: other != id ==> schedules[other] == old(schedules)[other]
      ensures Scanned(id, old(schedules)[id], schedules[id], warned, |old(warned)|, now)
      ensures forall i :: |old(warned)| <= i < |warned| ==>
        IsDueWarning(warned[i], old(schedules), now) && warned[i].schedule == id
    {
      var s := schedules[id];
      if !WarnsNow(s, now) { return; }
      KeyIsId(id);
      var w := Warning(id, s.revision, s.nextRun.value, now, s.def.warningMinutes);
      WarnKeepsWarned(schedules, warned, usedIds, id, w);
      var t := s.(lastWarning := Some((w.revision, w.at)));
      StoreKeepsAhead(schedules, log, clock, clock, t);
      schedules := schedules[id := t];
      warned := warned + [w];
      assert warned[|old(warned)|] == w;
    }

    /** The warning due for a schedule's next run. */
    predicate IsDueWarning(w: Warning, schedules: map<Id, Schedule>, now: int)
      reads this`servers, this`deletions, this`producers
    {
      w.schedule in schedules &&
      var s := schedules[w.schedule];
      WarnsNow(s, now) && w == Warning(w.schedule, s.revision, s.nextRun.value, now, s.def.warningMinutes)
    }

    /** Warns of every next run inside its window that has not been warned of, and of nothing else. */
    method ScanWarnings(now: int)
      requires Valid() && clock <= now
      modifies this`schedules, this`warned, this`clock
      ensures Valid() && clock == now && schedules.Keys == old(schedules).Keys && old(warned) <= warned
      ensures forall id <- schedules :: Scanned(id, old(schedules)[id], schedules[id], warned, |old(warned)|, now)
      ensures forall i :: |old(warned)| <= i < |warned| ==> IsDueWarning(warned[i], old(schedules), now)
    {
      hide SchedulesAhead, WarnedOnce, Reconciled, FromLog, WarnsNow, Scanned;
      Tick(now);
      var rest := schedules.Keys;
      while rest != {}
        invariant Valid() && clock == now && schedules.Keys == old(schedules).Keys && old(warned) <= warned
        invariant rest <= schedules.Keys
        invariant forall i :: |old(warned)| <= i < |warned| ==> IsDueWarning(warned[i], old(schedules), now)
        invariant forall id <- rest :: schedules[id] == old(schedules)[id]
        invariant forall id <- schedules.Keys - rest ::
          Scanned(id, old(schedules)[id], schedules[id], warned, |old(warned)|, now)
      {
        var id :| id in rest;
        ghost var before := warned;
        WarnOne(id, now);
        forall other | other in schedules.Keys - (rest - {id})
          ensures Scanned(other, old(schedules)[other], schedules[other], warned, |old(warned)|, now)
        {
          StaysScanned(other, old(schedules)[other], schedules[other], before, warned, |old(warned)|, now, other == id);
        }
        rest := rest - {id};
      }
    }

    /** What a scan makes of one schedule: warned of and remembered, or as it was. */
    predicate Scanned(id: Id, s: Schedule, t: Schedule, warned: seq<Warning>, from: nat, now: int)
      reads this`servers, this`deletions, this`producers
    {
      if WarnsNow(s, now) then
        && (exists i ::
              from <= i < |warned| && warned[i] == Warning(id, s.revision, s.nextRun.value, now, s.def.warningMinutes))
        && t == s.(lastWarning := Some((s.revision, s.nextRun.value)))
      else t == s
    }

    /** A scan warns of the next run that is due a warning and remembers exactly that, and leaves every other
        schedule alone. */
    lemma ScannedMeans(id: Id, s: Schedule, t: Schedule, warned: seq<Warning>, from: nat, now: int)
      requires Scanned(id, s, t, warned, from, now)
      ensures if WarnsNow(s, now)
        then
          && t == s.(lastWarning := Some((s.revision, s.nextRun.value)))
          && exists i ::
            from <= i < |warned| && warned[i] == Warning(id, s.revision, s.nextRun.value, now, s.def.warningMinutes)
        else t == s
    {
    }

    lemma StaysScanned(id: Id, s: Schedule, t: Schedule, before: seq<Warning>, warned: seq<Warning>, from: nat,
        now: int, latest: bool)
      requires before <= warned && from <= |before|
      requires if latest then Scanned(id, s, t, warned, |before|, now) else Scanned(id, s, t, before, from, now)
      ensures Scanned(id, s, t, warned, from, now)
    {
      if WarnsNow(s, now) && !latest {
        var i :| from <= i < |before|
          && before[i] == Warning(id, s.revision, s.nextRun.value, now, s.def.warningMinutes);
        assert warned[i] == before[i];
      }
    }

    // ---- process restart and deletion ----

    method RecoverAlerts()
      requires Valid()
      modifies this`producers
      ensures Valid() && producers.Keys == old(producers).Keys
      ensures forall id <- producers :: producers[id] == Producer(None, NO_RUNTIME, old(producers)[id].restart)
    {
      hide SchedulesAhead, WarnedOnce, Reconciled, FromLog;
      var rest := producers.Keys;
      while rest != {}
        invariant Valid() && producers.Keys == old(producers).Keys && rest <= producers.Keys
        invariant forall id <- rest :: producers[id] == old(producers)[id]
        invariant forall id <- producers.Keys - rest ::
          producers[id] == Producer(None, NO_RUNTIME, old(producers)[id].restart)
      {
        var id :| id in rest;
        var p := Producer(None, NO_RUNTIME, producers[id].restart);
        RewriteKeepsReconciled(history, producers, announced, issued, orphaned, id, p);
        producers := producers[id := p];
        rest := rest - {id};
      }
    }

    /** What startup makes of one schedule. */
    predicate Recovered(s: Schedule, t: Schedule, log: seq<Execution>, from: nat, now: int) {
      if !Due(s, now) then t == s
      else if next(s.def.timing, s.anchor, now).None?
        then t == s.(enabled := false, nextRun := None, lastResult := Some(Skipped))
      else Moved(next, s, t, now) && RecordedIn(log, from, s, None, Missed)
    }

    /** At startup a run that is due is missed, or its schedule disabled when there is no next one. */
    lemma RecoveredMeans(s: Schedule, t: Schedule, log: seq<Execution>, from: nat, now: int)
      requires Recovered(s, t, log, from, now)
      ensures if !(s.enabled && s.nextRun != None && s.nextRun.value <= now) then t == s
        else if next(s.def.timing, s.anchor, now) == None
          then t == s.(enabled := false, nextRun := None, lastResult := Some(Skipped))
        else OnRecord(s, log, from, None, Missed) && MovedOn(s, t, now)
    {
    }

    lemma RecoveredForGood(s: Schedule, t: Schedule, log1: seq<Execution>, log2: seq<Execution>, from1: nat,
        from2: nat, now: int)
      requires Recovered(s, t, log1, from1, now) && log1 <= log2 && from2 <= from1
      ensures Recovered(s, t, log2, from2, now)
    {
    }

    method RecoverOne(id: Id, now: int)
      requires Valid() && clock == now && id in schedules
      modifies this`history, this`schedules, this`records, this`log
      ensures Valid() && schedules.Keys == old(schedules).Keys && old(log) <= log
      ensures forall other <- schedules :: other != id ==> schedules[other] == old(schedules)[other]
      ensures Recovered(old(schedules)[id], schedules[id], log, |old(log)|, now)
      ensures history == Appended(old(history), log[|old(log)|..])
    {
      hide SchedulesAhead, WarnedOnce, Reconciled, FromLog, Appended;
      AppendedNothing(history, log);
      var s := schedules[id];
      if !Due(s, now) { return; }
      KeyIsId(id);
      var n := next(s.def.timing, s.anchor, now);
      if n.None? {
        Disable(s);
        return;
      }
      RecordAndAdvance(s, None, Missed, now);
      assert log[|log|-1] == RecordOf(|log|-1, s, None, Missed);
    }

    /** Overdue runs are recorded as missed, never caught up. */
    method RecoverReboots(now: int)
      requires Valid() && clock == now
      modifies this`history, this`schedules, this`records, this`log
      ensures Valid() && schedules.Keys == old(schedules).Keys && old(log) <= log
      ensures forall id <- schedules :: Recovered(old(schedules)[id], schedules[id], log, |old(log)|, now)
      ensures history == Appended(old(history), log[|old(log)|..])
    {
      hide Valid, SchedulesAhead, WarnedOnce, Reconciled, FromLog, Recovered, Moved, Appended, Trimmed;
      AppendedNothing(history, log);
      var rest := schedules.Keys;
      while rest != {}
        invariant Valid() && schedules.Keys == old(schedules).Keys && old(log) <= log && rest <= schedules.Keys
        invariant history == Appended(old(history), log[|old(log)|..])
        invariant forall id <- rest :: schedules[id] == old(schedules)[id]
        invariant forall id <- schedules.Keys - rest ::
          Recovered(old(schedules)[id], schedules[id], log, |old(log)|, now)
      {
        var id :| id in rest;
        ghost var before, h := log, history;
        RecoverOne(id, now);
        AppendedMore(old(history), h, history, old(log), before, log);
        forall other | other in schedules.Keys - (rest - {id})
          ensures Recovered(old(schedules)[other], schedules[other], log, |old(log)|, now)
        {
          if other == id {
            RecoveredForGood(old(schedules)[id], schedules[id], log, log, |before|, |old(log)|, now);
          } else {
            RecoveredForGood(old(schedules)[other], schedules[other], before, log, |old(log)|, |old(log)|, now);
          }
        }
        rest := rest - {id};
      }
    }

    /** A process restart: observations start afresh, pending restarts stay, and nothing is left due. */
    method RecoverProcess(now: int)
      requires Valid() && clock <= now
      modifies this`history, this`schedules, this`records, this`log, this`producers, this`clock
      ensures Valid() && clock == now && schedules.Keys == old(schedules).Keys && old(log) <= log
      ensures producers.Keys == old(producers).Keys
      ensures forall id <- producers :: producers[id].restart == old(producers)[id].restart
      ensures forall id <- schedules :: Recovered(old(schedules)[id], schedules[id], log, |old(log)|, now)
      ensures forall id <- schedules :: !Due(schedules[id], now)
      ensures history == Appended(old(history), log[|old(log)|..])
    {
      hide SchedulesAhead, WarnedOnce, Reconciled, FromLog, Recovered, Moved, Appended;
      Tick(now);
      RecoverAlerts();
      RecoverReboots(now);
      forall id | id in schedules ensures !Due(schedules[id], now) {
        RecoveredIsNotDue(old(schedules)[id], schedules[id], log, |old(log)|, now);
      }
    }

    lemma RecoveredIsNotDue(s: Schedule, t: Schedule, log: seq<Execution>, from: nat, now: int)
      requires Later(next) && Recovered(s, t, log, from, now)
      ensures !Due(t, now)
    {
    }

    method BeginDeletion(server: Id)
      requires Valid() && server in servers
      modifies this`deletions, this`servers
      ensures Valid() && deletions == old(deletions) + {server}
      ensures servers.Keys == old(servers).Keys
      ensures servers == old(servers)[server := old(servers)[server].(status := Deleting)]
    {
      deletions := deletions + {server};
      servers := servers[server := servers[server].(status := Deleting)];
    }

    /** The end of a deletion: the server, its producer and its schedules are gone; an operation it
        was waiting for can no longer be announced. */
    method CompleteDeletion(server: Id)
      requires Valid()
      modifies this`servers, this`producers, this`schedules, this`deletions, this`orphaned
      ensures Valid()
      ensures servers == old(servers) - {server} && producers == old(producers) - {server}
      ensures deletions == old(deletions) + {server} && history == old(history)
      ensures schedules == map id | id in old(schedules) && old(schedules)[id].def.server != server ::
        old(schedules)[id]
    {
      hide SchedulesAhead, WarnedOnce, Reconciled, FromLog;
      ForgetSchedulesOf(server);
      DeleteKeepsReconciled(history, producers, announced, issued, orphaned, server);
      orphaned := orphaned + PendingOf(producers, server);
      servers, producers := servers - {server}, producers - {server};
      deletions := deletions + {server};
    }

    method ForgetSchedulesOf(server: Id)
      requires Valid()
      modifies this`schedules
      ensures Valid()
      ensures schedules == map id | id in old(schedules) && old(schedules)[id].def.server != server ::
        old(schedules)[id]
    {
      var kept := map id | id in schedules && schedules[id].def.server != server :: schedules[id];
      ForgetKeepsAhead(schedules, kept, log, clock, clock);
      ForgetKeepsWarned(schedules, kept, warned, usedIds);
      hide SchedulesAhead, WarnedOnce, Reconciled, FromLog;
      schedules := kept;
    }

    method AddServer(server: Id, value: Server)
      requires Valid() && server !in deletions
      modifies this`servers
      ensures Valid() && servers == old(servers)[server := value]
    {
      servers := servers[server := value];
    }
  }
}
