/** Reboot schedules, the audit history and pending restarts: the values, and what every step keeps.

    Besides the stored state the invariants speak of three traces that only grow: every record ever
    made, every restart outcome ever announced and every warning ever issued. */
module RebootLedger {
  import opened Options
  import opened Units

  type Id = nat

  const LATE_WINDOW := 60 * SECOND
  const MAX_SCHEDULES := 256
  const MAX_HISTORY := 500
  const MAX_ACTIVE := 1024
  const RESTART_TIMEOUT := 5 * MINUTE

  datatype Result = Awaiting | Completed | Failed | Skipped | Missed | Uncertain

  predicate Active(r: Result) { r == Awaiting || r == Uncertain }

  /** What a schedule does: its target, the key of its timing fields, and its warning lead. */
  datatype Definition = Definition(server: Id, timing: nat, warningMinutes: nat)

  datatype Schedule = Schedule(
    id: Id, def: Definition, enabled: bool, revision: nat, anchor: Option<int>, nextRun: Option<int>,
    lastWarning: Option<(nat, int)>,   // revision and run time of the last warned occurrence
    lastAt: Option<int>, lastResult: Option<Result>, lastOperation: Option<Id>)

  /** One history entry. `number` is its place in the trace of all records. */
  datatype Execution = Execution(number: nat, schedule: Id, revision: nat, server: Id, at: int,
                                 operation: Option<Id>, result: Result)

  datatype Restart = Restart(id: Id, runtime: int, requestedAt: int, uncertain: bool)

  datatype Producer = Producer(lastAt: Option<int>, runtime: int, restart: Option<Restart>)

  datatype Announcement = Announcement(operation: Id, completed: bool)

  datatype Warning = Warning(schedule: Id, revision: nat, at: int, issued: int, lead: nat)

  // ---- schedules against the trace of records ----

  predicate Ascending(log: seq<Execution>) {
    forall i, j :: 0 <= i < j < |log| && log[i].schedule == log[j].schedule ==> log[i].at < log[j].at
  }

  /** Every record of a schedule is earlier than its next run, so none is ever recorded twice. */
  predicate SchedulesAhead(schedules: map<Id, Schedule>, log: seq<Execution>, clock: int) {
    && (forall id <- schedules :: schedules[id].id == id && (schedules[id].enabled <==> schedules[id].nextRun.Some?))
    && (forall i :: 0 <= i < |log| ==> log[i].at <= clock)
    && (forall i :: 0 <= i < |log| ==> log[i].schedule in schedules && schedules[log[i].schedule].nextRun.Some? ==>
          log[i].at < schedules[log[i].schedule].nextRun.value)
    && Ascending(log)
  }

  /** A schedule may be stored when its next run is later than now, or is one that was kept. */
  lemma StoreKeepsAhead(schedules: map<Id, Schedule>, log: seq<Execution>, clock: int, now: int, s: Schedule)
    requires SchedulesAhead(schedules, log, clock) && clock <= now
    requires s.enabled <==> s.nextRun.Some?
    requires s.nextRun.Some? ==> now < s.nextRun.value || (s.id in schedules && s.nextRun == schedules[s.id].nextRun)
    ensures SchedulesAhead(schedules[s.id := s], log, now)
  {
  }

  /** Recording the due run and moving on: the heart of claims, skips and startup recovery. */
  lemma RecordKeepsAhead(schedules: map<Id, Schedule>, log: seq<Execution>, clock: int, now: int, e: Execution,
      s: Schedule)
    requires SchedulesAhead(schedules, log, clock) && clock <= now
    requires s.id in schedules && e.schedule == s.id && schedules[s.id].nextRun == Some(e.at) && e.at <= now
    requires s.enabled <==> s.nextRun.Some?
    requires s.nextRun.Some? ==> now < s.nextRun.value
    ensures SchedulesAhead(schedules[s.id := s], log + [e], now)
  {
    var next := log + [e];
    forall i, j | 0 <= i < j < |next| && next[i].schedule == next[j].schedule ensures next[i].at < next[j].at {
      if j == |log| { assert next[i] == log[i]; }
    }
  }

  lemma ForgetKeepsAhead(schedules: map<Id, Schedule>, rest: map<Id, Schedule>, log: seq<Execution>, clock: int,
      now: int)
    requires SchedulesAhead(schedules, log, clock) && clock <= now
    requires rest.Keys <= schedules.Keys && forall id <- rest :: rest[id] == schedules[id]
    ensures SchedulesAhead(rest, log, now)
  {
  }

  // ---- warnings ----

  /** The warned occurrence precedes what the schedule will do next, in (revision, run time) order;
      it equals the next occurrence only if the schedule remembers having warned of it. */
  predicate Behind(w: Warning, s: Schedule) {
    w.revision < s.revision ||
    (w.revision == s.revision && (s.nextRun.Some? ==>
      w.at < s.nextRun.value || (w.at == s.nextRun.value && s.lastWarning == Some((w.revision, w.at)))))
  }

  predicate Timely(w: Warning) {
    w.at - w.lead * MINUTE <= w.issued < w.at
  }

  predicate WarnedOnce(schedules: map<Id, Schedule>, warned: seq<Warning>, used: set<Id>) {
    && schedules.Keys <= used
    && (forall w <- warned :: w.schedule in used && Timely(w))
    && (forall w <- warned :: w.schedule in schedules ==> Behind(w, schedules[w.schedule]))
    && (forall i, j :: 0 <= i < j < |warned| ==>
          (warned[i].schedule, warned[i].revision, warned[i].at) !=
          (warned[j].schedule, warned[j].revision, warned[j].at))
  }

  /** How a schedule may change: its next occurrence only moves forward. */
  predicate Forward(s: Schedule, t: Schedule) {
    s.revision < t.revision ||
    (s.revision == t.revision && t.lastWarning == s.lastWarning &&
     (t.nextRun.None? || (s.nextRun.Some? && s.nextRun.value <= t.nextRun.value)))
  }

  lemma StoreKeepsWarned(schedules: map<Id, Schedule>, warned: seq<Warning>, used: set<Id>, s: Schedule)
    requires WarnedOnce(schedules, warned, used)
    requires if s.id in schedules then Forward(schedules[s.id], s) else s.id !in used
    ensures WarnedOnce(schedules[s.id := s], warned, used + {s.id})
  {
  }

  lemma ForgetKeepsWarned(schedules: map<Id, Schedule>, rest: map<Id, Schedule>, warned: seq<Warning>, used: set<Id>)
    requires WarnedOnce(schedules, warned, used)
    requires rest.Keys <= schedules.Keys && forall id <- rest :: rest[id] == schedules[id]
    ensures WarnedOnce(rest, warned, used)
  {
  }

  /** A warning is issued only for an occurrence the schedule does not remember. */
  lemma WarnKeepsWarned(schedules: map<Id, Schedule>, warned: seq<Warning>, used: set<Id>, id: Id, w: Warning)
    requires WarnedOnce(schedules, warned, used)
    requires id in schedules && w.schedule == id && schedules[id].id == id && Timely(w)
    requires w.revision == schedules[id].revision && schedules[id].nextRun == Some(w.at)
    requires schedules[id].lastWarning != Some((w.revision, w.at))
    ensures WarnedOnce(schedules[id := schedules[id].(lastWarning := Some((w.revision, w.at)))], warned + [w], used)
  {
    forall v | v in warned ensures v.schedule != id || v.revision != w.revision || v.at != w.at {
      if v.schedule == id { assert Behind(v, schedules[id]); }
    }
  }

  // ---- restarts ----

  predicate Pending(producers: map<Id, Producer>, op: Id) {
    exists id <- producers :: producers[id].restart.Some? && producers[id].restart.value.id == op
  }

  /** Active entries wait for a restart that is still pending (or whose server was deleted); every
      operation is announced at most once, and only after it stopped pending. */
  predicate Reconciled(history: seq<Execution>, producers: map<Id, Producer>, announced: seq<Announcement>,
                       issued: set<Id>, orphaned: set<Id>) {
    && (forall h <- history :: Active(h.result) ==>
          h.operation.Some? && (h.operation.value in orphaned || Pending(producers, h.operation.value)))
    && (forall id <- producers :: producers[id].restart.Some? ==>
          producers[id].restart.value.id in issued && producers[id].restart.value.id !in orphaned)
    && (forall a, b ::
          a in producers && b in producers && a != b && producers[a].restart.Some? && producers[b].restart.Some? ==>
          producers[a].restart.value.id != producers[b].restart.value.id)
    && orphaned <= issued
    && (forall i :: 0 <= i < |announced| ==> announced[i].operation in issued && announced[i].operation !in orphaned)
    && (forall i :: 0 <= i < |announced| ==> !Pending(producers, announced[i].operation))
    && (forall i, j :: 0 <= i < j < |announced| ==> announced[i].operation != announced[j].operation)
  }

  /** Once announced, an operation has no entry left waiting. */
  lemma AnnouncedIsTerminal(history: seq<Execution>, producers: map<Id, Producer>, announced: seq<Announcement>,
                            issued: set<Id>, orphaned: set<Id>, i: nat, h: Execution)
    requires Reconciled(history, producers, announced, issued, orphaned)
    requires i < |announced| && h in history && h.operation == Some(announced[i].operation)
    ensures !Active(h.result)
  {
  }

  lemma ReserveKeepsReconciled(history: seq<Execution>, producers: map<Id, Producer>, announced: seq<Announcement>,
                               issued: set<Id>, orphaned: set<Id>, server: Id, p: Producer)
    requires Reconciled(history, producers, announced, issued, orphaned)
    requires server in producers ==> producers[server].restart.None?
    requires p.restart.Some? && p.restart.value.id !in issued
    ensures Reconciled(history, producers[server := p], announced, issued + {p.restart.value.id}, orphaned)
    ensures Pending(producers[server := p], p.restart.value.id)
  {
    var after := producers[server := p];
    assert after[server] == p;
    forall op ensures Pending(after, op) <==> Pending(producers, op) || op == p.restart.value.id {
      if id :| id in producers && producers[id].restart.Some? && producers[id].restart.value.id == op {
        assert after[id] == producers[id];
      }
    }
  }

  /** A producer may be rewritten freely as long as it keeps the same pending operation. */
  lemma RewriteKeepsReconciled(history: seq<Execution>, producers: map<Id, Producer>, announced: seq<Announcement>,
                               issued: set<Id>, orphaned: set<Id>, server: Id, p: Producer)
    requires Reconciled(history, producers, announced, issued, orphaned)
    requires if server in producers && producers[server].restart.Some?
             then p.restart.Some? && p.restart.value.id == producers[server].restart.value.id
             else p.restart.None?
    ensures Reconciled(history, producers[server := p], announced, issued, orphaned)
  {
    var after := producers[server := p];
    forall op ensures Pending(after, op) <==> Pending(producers, op) {
      if id :| id in producers && producers[id].restart.Some? && producers[id].restart.value.id == op {
        assert after[id].restart.Some?;
      }
    }
  }

  lemma RecordKeepsReconciled(history: seq<Execution>, producers: map<Id, Producer>, announced: seq<Announcement>,
                              issued: set<Id>, orphaned: set<Id>, e: Execution)
    requires Reconciled(history, producers, announced, issued, orphaned)
    requires Active(e.result) ==> e.operation.Some? && Pending(producers, e.operation.value)
    ensures Reconciled(history + [e], producers, announced, issued, orphaned)
  {
  }

  /** What finishing an operation does to one entry. */
  function Finished(h: Execution, op: Id, result: Result): Execution {
    if h.operation == Some(op) && Active(h.result) then h.(result := result) else h
  }

  function FinishAll(history: seq<Execution>, op: Id, result: Result): (r: seq<Execution>) {
    seq(|history|, i requires 0 <= i < |history| => Finished(history[i], op, result))
  }

  /** Every entry of the operation that still waits gets the result; every other entry stays as it is. */
  lemma FinishAllIs(history: seq<Execution>, op: Id, result: Result, i: nat)
    requires i < |history|
    ensures |FinishAll(history, op, result)| == |history|
    ensures FinishAll(history, op, result)[i] ==
      if history[i].operation == Some(op) && history[i].result in {Awaiting, Uncertain}
      then history[i].(result := result) else history[i]
  {
  }

  /** Announcing an outcome in the same step as finishing its entries keeps the ledger. */
  lemma AnnounceKeepsReconciled(history: seq<Execution>, producers: map<Id, Producer>, announced: seq<Announcement>,
                                issued: set<Id>, orphaned: set<Id>, server: Id, p: Producer, a: Announcement,
                                result: Result)
    requires Reconciled(history, producers, announced, issued, orphaned)
    requires server in producers && producers[server].restart.Some? && producers[server].restart.value.id == a.operation
    requires p.restart.None? && !Active(result)
    ensures Reconciled(FinishAll(history, a.operation, result), producers[server := p], announced + [a], issued,
      orphaned)
  {
    var after := producers[server := p];
    forall op ensures Pending(after, op) <==> Pending(producers, op) && op != a.operation {
      if id :| id in producers && producers[id].restart.Some? && producers[id].restart.value.id == op {
        if op != a.operation { assert id != server && after[id] == producers[id]; }
      }
    }
    var f := FinishAll(history, a.operation, result);
    forall h | h in f && Active(h.result)
      ensures h.operation.Some? && (h.operation.value in orphaned || Pending(after, h.operation.value))
    {
      var i :| 0 <= i < |f| && f[i] == h;
      assert history[i] in history && h == history[i];
    }
  }

  lemma UncertainKeepsReconciled(history: seq<Execution>, producers: map<Id, Producer>, announced: seq<Announcement>,
                                 issued: set<Id>, orphaned: set<Id>, op: Id)
    requires Reconciled(history, producers, announced, issued, orphaned)
    ensures Reconciled(FinishAll(history, op, Uncertain), producers, announced, issued, orphaned)
  {
    var f := FinishAll(history, op, Uncertain);
    forall h | h in f && Active(h.result)
      ensures h.operation.Some? && (h.operation.value in orphaned || Pending(producers, h.operation.value))
    {
      var i :| 0 <= i < |f| && f[i] == h;
      assert history[i] in history && Active(history[i].result) && h.operation == history[i].operation;
    }
  }

  /** The operation a server waits for, if there is one. */
  function PendingOf(producers: map<Id, Producer>, server: Id): set<Id> {
    if server in producers && producers[server].restart.Some? then {producers[server].restart.value.id} else {}
  }

  /** Deleting a server's producer orphans the operation it was waiting for. */
  lemma DeleteKeepsReconciled(history: seq<Execution>, producers: map<Id, Producer>, announced: seq<Announcement>,
                              issued: set<Id>, orphaned: set<Id>, server: Id)
    requires Reconciled(history, producers, announced, issued, orphaned)
    ensures var gone := PendingOf(producers, server);
            Reconciled(history, producers - {server}, announced, issued, orphaned + gone)
  {
    var gone := PendingOf(producers, server);
    var after := producers - {server};
    forall op ensures Pending(producers, op) ==> op in gone || Pending(after, op) {
      if id :| id in producers && producers[id].restart.Some? && producers[id].restart.value.id == op {
        if id != server { assert after[id] == producers[id]; }
      }
    }
    forall i | 0 <= i < |announced| ensures announced[i].operation !in gone {
      assert !Pending(producers, announced[i].operation);
    }
  }

  // ---- trimming the history ----

  function FirstInactive(history: seq<Execution>, from: nat): (i: nat)
    requires from <= |history|
    ensures from <= i <= |history|
    ensures i < |history| ==> !Active(history[i].result)
    ensures forall j :: from <= j < i ==> Active(history[j].result)
    decreases |history| - from
  {
    if from == |history| || !Active(history[from].result) then from else FirstInactive(history, from + 1)
  }

  function Without(history: seq<Execution>, i: nat): seq<Execution>
    requires i < |history|
  {
    history[..i] + history[i+1..]
  }

  /** Drops the oldest finished entries until the history fits; waiting entries are never dropped. */
  function Trimmed(history: seq<Execution>): seq<Execution>
    decreases |history|
  {
    if |history| <= MAX_HISTORY || FirstInactive(history, 0) == |history| then history
    else Trimmed(Without(history, FirstInactive(history, 0)))
  }

  function Waiting(history: seq<Execution>): seq<Execution> {
    if history == [] then []
    else (if Active(history[0].result) then [history[0]] else []) + Waiting(history[1..])
  }

  lemma {:induction false} WaitingSplit(a: seq<Execution>, b: seq<Execution>)
    ensures Waiting(a + b) == Waiting(a) + Waiting(b)
    decreases |a|
  {
    if a == [] {
      assert a + b == b;
    } else {
      var first := if Active(a[0].result) then [a[0]] else [];
      assert (a + b)[0] == a[0] && (a + b)[1..] == a[1..] + b;
      WaitingSplit(a[1..], b);
      assert Waiting(a + b) == first + (Waiting(a[1..]) + Waiting(b));
    }
  }

  lemma DropFinished(history: seq<Execution>, i: nat)
    requires i < |history| && !Active(history[i].result)
    ensures Waiting(Without(history, i)) == Waiting(history)
  {
    assert history == history[..i] + history[i..];
    WaitingSplit(history[..i], history[i..]);
    WaitingSplit(history[..i], history[i+1..]);
    assert history[i..][1..] == history[i+1..];
  }

  /** Trimming keeps exactly the waiting entries, in order, and fits unless all that is left waits. */
  lemma {:induction false} TrimKeepsWaiting(history: seq<Execution>)
    ensures Waiting(Trimmed(history)) == Waiting(history)
    ensures forall h <- Trimmed(history) :: h in history
    ensures |Trimmed(history)| <= MAX_HISTORY || forall h <- Trimmed(history) :: Active(h.result)
    decreases |history|
  {
    var i := FirstInactive(history, 0);
    if |history| > MAX_HISTORY && i < |history| {
      TrimKeepsWaiting(Without(history, i));
      DropFinished(history, i);
    }
  }

  lemma TrimKeepsReconciled(history: seq<Execution>, producers: map<Id, Producer>, announced: seq<Announcement>,
                            issued: set<Id>, orphaned: set<Id>)
    requires Reconciled(history, producers, announced, issued, orphaned)
    ensures Reconciled(Trimmed(history), producers, announced, issued, orphaned)
  {
    TrimKeepsWaiting(history);
  }

  /** Entries appended one by one, trimming after each. */
  function Appended(history: seq<Execution>, es: seq<Execution>): seq<Execution> {
    if es == [] then history else Trimmed(Appended(history, es[..|es|-1]) + [es[|es|-1]])
  }

  lemma {:induction false} AppendedConcat(history: seq<Execution>, a: seq<Execution>, b: seq<Execution>)
    ensures Appended(history, a + b) == Appended(Appended(history, a), b)
    decreases |b|
  {
    if b == [] {
      assert a + b == a;
    } else {
      assert (a + b)[..|a + b|-1] == a + b[..|b|-1];
      AppendedConcat(history, a, b[..|b|-1]);
    }
  }

  /** Two stretches of records in a row are one stretch. */
  lemma AppendedMore(h0: seq<Execution>, h1: seq<Execution>, h2: seq<Execution>,
                     l0: seq<Execution>, l1: seq<Execution>, l2: seq<Execution>)
    requires l0 <= l1 <= l2 && h1 == Appended(h0, l1[|l0|..]) && h2 == Appended(h1, l2[|l1|..])
    ensures h2 == Appended(h0, l2[|l0|..])
  {
    assert l2[|l0|..] == l1[|l0|..] + l2[|l1|..];
    AppendedConcat(h0, l1[|l0|..], l2[|l1|..]);
  }

  lemma AppendedNothing(history: seq<Execution>, log: seq<Execution>)
    ensures Appended(history, log[|log|..]) == history
  {
  }

  lemma AppendedOne(history: seq<Execution>, log: seq<Execution>, e: Execution)
    ensures Appended(history, (log + [e])[|log|..]) == Trimmed(history + [e])
  {
    assert (log + [e])[|log|..] == [e];
    assert [e][..0] == [];
  }

  /** However much is appended, every waiting entry is still there, in order. */
  lemma {:induction false} AppendedWaiting(history: seq<Execution>, es: seq<Execution>)
    ensures Waiting(Appended(history, es)) == Waiting(history) + Waiting(es)
    decreases |es|
  {
    if es != [] {
      var init, last := es[..|es|-1], es[|es|-1];
      AppendedWaiting(history, init);
      TrimKeepsWaiting(Appended(history, init) + [last]);
      WaitingSplit(Appended(history, init), [last]);
      WaitingSplit(init, [last]);
      assert es == init + [last];
    }
  }

  lemma {:induction false} NoneWaits(es: seq<Execution>)
    requires forall i :: 0 <= i < |es| ==> !Active(es[i].result)
    ensures Waiting(es) == []
    decreases |es|
  {
    if es != [] { NoneWaits(es[1..]); }
  }

  // ---- the summary of the latest occurrence ----

  /** A result reaches the schedule's summary unless the summary is of a later occurrence. */
  function Report(schedules: map<Id, Schedule>, e: Execution): map<Id, Schedule> {
    if e.schedule in schedules && (schedules[e.schedule].lastAt.Some? ==> schedules[e.schedule].lastAt.value <= e.at)
    then
      var s := schedules[e.schedule];
      schedules[e.schedule := s.(lastAt := Some(e.at), lastResult := Some(e.result), lastOperation := e.operation)]
    else schedules
  }

  function ReportAll(schedules: map<Id, Schedule>, es: seq<Execution>): map<Id, Schedule> {
    if es == [] then schedules else Report(ReportAll(schedules, es[..|es|-1]), es[|es|-1])
  }

  /** The entries an outcome finishes, with that outcome, in the order of the history. */
  function Outcomes(history: seq<Execution>, op: Id, result: Result): seq<Execution> {
    if history == [] then []
    else
      var h := history[|history|-1];
      Outcomes(history[..|history|-1], op, result) +
      if h.operation == Some(op) && Active(h.result) then [h.(result := result)] else []
  }

  lemma OneMoreOutcome(history: seq<Execution>, i: nat, op: Id, result: Result, schedules: map<Id, Schedule>)
    requires i < |history|
    ensures var before := ReportAll(schedules, Outcomes(history[..i], op, result));
      ReportAll(schedules, Outcomes(history[..i+1], op, result)) ==
        if history[i].operation == Some(op) && Active(history[i].result)
        then Report(before, Finished(history[i], op, result)) else before
  {
    var before := Outcomes(history[..i], op, result);
    assert history[..i+1][..i] == history[..i];
    assert before + [] == before;
    assert forall e: Execution :: (before + [e])[..|before|] == before;
  }

  predicate SummaryOf(s: Schedule, e: Execution) {
    s.lastAt == Some(e.at) && s.lastResult == Some(e.result) && s.lastOperation == e.operation
  }

  /** Afterwards a schedule's summary is no older than any reported occurrence of it; it is that of one
      of them, or it was later than all and is untouched. */
  lemma {:induction false} SummaryIsLatest(schedules: map<Id, Schedule>, es: seq<Execution>, id: Id)
    requires id in schedules
    ensures ReportAll(schedules, es).Keys == schedules.Keys
    ensures forall e <- es :: e.schedule == id ==>
      ReportAll(schedules, es)[id].lastAt.Some? && e.at <= ReportAll(schedules, es)[id].lastAt.value
    ensures ReportAll(schedules, es)[id] == schedules[id] ||
      exists e <- es :: e.schedule == id && SummaryOf(ReportAll(schedules, es)[id], e)
    decreases |es|
  {
    if es != [] {
      var init := es[..|es|-1];
      SummaryIsLatest(schedules, init, id);
      assert es == init + [es[|es|-1]];
      assert es[|es|-1] in es;
    }
  }
}
