/** The life of one notification delivery: durable claim, send, durable result, interleaved with
    cancellations, failing writes and crashes of the panel.

    The store keeps a copy in memory and one on disk. A failing write may leave them different; after
    that no write succeeds until the process has been restarted from the disk. */
module Deliveries {
  import opened Options
  import opened Units

  const MAX_ATTEMPTS := 5

  datatype Status = Pending | Sending | Sent | Retry | Failed | Uncertain

  datatype Delivery = Delivery(status: Status, attempts: nat, nextAttempt: int)

  datatype Answer = Answer(status: Status, wait: int)

  datatype Worker = Idle | Claimed(attempt: nat) | Answered(attempt: nat, answer: Answer)

  /** How an update of the store ends. */
  datatype Write = Stored | Refused | UnsureOld | UnsureNew

  // ---- the protocol a delivery must follow ----

  datatype Entry =
    | Claim(attempt: nat, at: int)
    | Send(attempt: nat)
    | RetryAfter(attempt: nat, until: int)
    | Finished                             // sent, failed or uncertain, or cancelled

  /** Where a history of entries has led. `Ready(k, t)`: k attempts were made and may be followed by
      another from time t on. `Over(k)`: finished, though attempt k, if any, may still be on its way. */
  datatype Phase =
    | Ready(attempts: nat, from: int)
    | Open(attempt: nat)
    | Out(attempt: nat)
    | Over(inFlight: Option<nat>)
    | Illegal

  function After(p: Phase, e: Entry): Phase {
    match e
    case Claim(k, at) =>
      if p.Ready? && k == p.attempts + 1 && k <= MAX_ATTEMPTS && p.from <= at then Open(k) else Illegal
    case Send(k) => if p == Open(k) then Out(k) else if p == Over(Some(k)) then Over(None) else Illegal
    case RetryAfter(k, until) => if p == Out(k) && k < MAX_ATTEMPTS then Ready(k, until) else Illegal
    case Finished =>
      match p
      case Ready(_, _) => Over(None)
      case Open(k) => Over(Some(k))
      case Out(_) => Over(None)
      case Over(f) => Over(f)
      case Illegal => Illegal
  }

  function PhaseOf(log: seq<Entry>, created: int): Phase {
    if log == [] then Ready(0, created) else After(PhaseOf(log[..|log|-1], created), log[|log|-1])
  }

  lemma PhaseAppend(log: seq<Entry>, created: int, e: Entry)
    ensures PhaseOf(log + [e], created) == After(PhaseOf(log, created), e)
  {
    assert (log + [e])[..|log + [e]|-1] == log;
  }

  predicate Follows(log: seq<Entry>, created: int) { PhaseOf(log, created) != Illegal }

  function Sends(log: seq<Entry>): seq<nat> {
    if log == [] then [] else Sends(log[..|log|-1]) + if log[|log|-1].Send? then [log[|log|-1].attempt] else []
  }

  function Made(p: Phase): nat {
    match p
    case Ready(k, _) => k
    case Open(k) => k
    case Out(k) => k
    case Over(_) => MAX_ATTEMPTS
    case Illegal => 0
  }

  /** Attempts are numbered upwards and there are at most five, so a lawful history sends at most five times. */
  lemma {:induction false} AtMostFiveSends(log: seq<Entry>, created: int)
    requires Follows(log, created)
    ensures |Sends(log)| <= Made(PhaseOf(log, created)) <= MAX_ATTEMPTS
    ensures PhaseOf(log, created).Open? ==> |Sends(log)| < PhaseOf(log, created).attempt
    ensures PhaseOf(log, created).Over? && PhaseOf(log, created).inFlight.Some? ==> |Sends(log)| < MAX_ATTEMPTS
    decreases |log|
  {
    if log != [] { AtMostFiveSends(log[..|log|-1], created); }
  }

  predicate InFlight(p: Phase, attempt: nat) { p == Open(attempt) || p == Over(Some(attempt)) }

  /** No claim and no retry follows the end of a delivery, and at most one send, whose claim was then still
      open: the delivery was cancelled after it was claimed. */
  lemma {:induction false} NothingAfterTheEnd(log: seq<Entry>, created: int, i: nat, j: nat)
    requires Follows(log, created) && i < j < |log| && log[i] == Finished
    ensures !log[j].Claim? && !log[j].RetryAfter?
    ensures log[j].Send? ==> InFlight(PhaseOf(log[..i], created), log[j].attempt)
    ensures log[j].Send? ==> forall k :: i < k < j ==> !log[k].Send?
    decreases |log|
  {
    PrefixFollows(log, created, j);
    PrefixFollows(log, created, j + 1);
    OverStaysOver(log[..j], created, i);
    assert log[..j+1] == log[..j] + [log[j]];
    PhaseAppend(log[..j], created, log[j]);
    assert log[..j][..i] == log[..i];
    forall k | i < k < j && log[k].Send? ensures !log[j].Send? {
      SendEmptiesFlight(log[..j], created, i, k);
    }
  }

  lemma {:induction false} PrefixFollows(log: seq<Entry>, created: int, n: nat)
    requires Follows(log, created) && n <= |log|
    ensures Follows(log[..n], created)
    decreases |log|
  {
    if n < |log| {
      assert log[..|log|-1][..n] == log[..n];
      PrefixFollows(log[..|log|-1], created, n);
    } else {
      assert log[..n] == log;
    }
  }

  lemma {:induction false} OverStaysOver(log: seq<Entry>, created: int, i: nat)
    requires Follows(log, created) && i < |log| && log[i] == Finished
    ensures PhaseOf(log, created).Over?
    ensures PhaseOf(log, created).inFlight.Some? ==>
      PhaseOf(log[..i], created) == Open(PhaseOf(log, created).inFlight.value) ||
      PhaseOf(log[..i], created) == Over(PhaseOf(log, created).inFlight)
    decreases |log|
  {
    if i < |log| - 1 {
      assert log[..|log|-1][..i] == log[..i];
      OverStaysOver(log[..|log|-1], created, i);
    }
  }

  lemma {:induction false} SendEmptiesFlight(log: seq<Entry>, created: int, i: nat, k: nat)
    requires Follows(log, created) && i < k < |log| && log[i] == Finished && log[k].Send?
    ensures PhaseOf(log, created) == Over(None)
    decreases |log|
  {
    var init := log[..|log|-1];
    if k < |log| - 1 {
      assert init[..i] == log[..i];
      SendEmptiesFlight(init, created, i, k);
    } else {
      OverStaysOver(init, created, i);
    }
  }

  /** Since send `i` and with no send in between, the history has not gone on, has ended for good, or has
      the retry of that attempt behind it and, once there is a new claim, that claim no sooner than the
      retry allowed. */
  lemma {:induction false} SinceSend(log: seq<Entry>, created: int, i: nat, n: nat) returns (a: nat, b: nat)
    requires i < n <= |log| && Follows(log[..n], created) && log[i].Send?
    requires forall m :: i < m < n ==> !log[m].Send?
    ensures var p, k := PhaseOf(log[..n], created), log[i].attempt;
      || p == Out(k) || p == Over(None)
      || (p.Ready? && p.attempts == k && i < a < n && log[a] == RetryAfter(k, p.from))
      || (!p.Ready? && i < a < b < n && RetriedBy(log, i, a, b))
    decreases n
  {
    a, b := 0, 0;
    var e := log[n-1];
    assert log[..n] == log[..n-1] + [e];
    PhaseAppend(log[..n-1], created, e);
    if i < n - 1 {
      a, b := SinceSend(log, created, i, n - 1);
      if e.RetryAfter? { a := n - 1; }
      if e.Claim? { b := n - 1; }
    }
  }

  /** Entry `a` schedules the retry of send `i`, and entry `b` is the next claim, at that time or later. */
  predicate RetriedBy(log: seq<Entry>, i: nat, a: nat, b: nat)
    requires i < |log| && a < |log| && b < |log| && log[i].Send?
  {
    && log[a].RetryAfter? && log[a].attempt == log[i].attempt
    && log[b].Claim? && log[b].attempt == log[i].attempt + 1 && log[a].until <= log[b].at
  }

  /** Between two sends in a row lie the retry of the first and, no sooner than it allows, the next claim. */
  lemma BetweenSends(log: seq<Entry>, created: int, i: nat, j: nat) returns (a: nat, b: nat)
    requires Follows(log, created) && i < j < |log| && log[i].Send? && log[j].Send?
    requires forall m :: i < m < j ==> !log[m].Send?
    ensures i < a < b < j && RetriedBy(log, i, a, b)
  {
    PrefixFollows(log, created, j);
    PrefixFollows(log, created, j + 1);
    a, b := SinceSend(log, created, i, j);
    assert log[..j+1] == log[..j] + [log[j]];
    PhaseAppend(log[..j], created, log[j]);
  }

  // ---- the store, the worker and the rest of the panel ----

  /** A copy of the delivery together with the history it stands for. */
  datatype Copy = Copy(delivery: Option<Delivery>, history: seq<Entry>)

  datatype System = System(mem: Copy, disk: Copy, broken: bool, up: bool, worker: Worker)

  datatype Step =
    | Claiming(at: int, valid: bool, w: Write)       // valid: the integration still wants this delivery
    | Posting(answer: Answer)
    | Recording(finished: int, w: Write)
    | Cancelling(sendingToo: bool, w: Write)         // a stop or a deletion takes in sending ones too
    | Reconciling(w: Write)                          // the worker finds a claim whose result was lost
    | Pruning(w: Write)
    | Crash
    | Start(w: Write)

  function Update(s: System, c: Copy, w: Write): System {
    if s.broken then s
    else
      match w
      case Stored => s.(mem := c, disk := c)
      case Refused => s
      case UnsureOld => s.(broken := true)
      case UnsureNew => s.(disk := c, broken := true)
  }

  function With(c: Copy, status: Status, e: Entry): Copy
    requires c.delivery.Some?
  {
    Copy(Some(c.delivery.value.(status := status)), c.history + [e])
  }

  function Pow2(k: nat): nat { if k == 0 then 1 else 2 * Pow2(k - 1) }

  function RetryTime(finished: int, k: nat, wait: int): int {
    var delay := Pow2(k) * SECOND;
    finished + if wait > delay then wait else delay
  }

  /** The copy after the answer to attempt k has been written down. */
  function Recorded(c: Copy, k: nat, a: Answer, finished: int): Copy
    requires c.delivery.Some?
  {
    if a.status == Retry && k < MAX_ATTEMPTS then
      var until := RetryTime(finished, k, a.wait);
      Copy(Some(Delivery(Retry, k, until)), c.history + [RetryAfter(k, until)])
    else With(c, if a.status == Retry then Failed else a.status, Finished)
  }

  /** At startup a claim found on disk is of unknown outcome. */
  function Recovered(c: Copy): Copy {
    if c.delivery.Some? && c.delivery.value.status == Sending then With(c, Uncertain, Finished) else c
  }

  predicate Enabled(s: System, step: Step) {
    match step
    case Claiming(at, _, _) =>
      s.up && s.worker.Idle? && s.mem.delivery.Some? && s.mem.delivery.value.status in {Pending, Retry} &&
      s.mem.delivery.value.nextAttempt <= at
    case Posting(a) => s.up && s.worker.Claimed? && a.status in {Sent, Retry, Failed, Uncertain}
    case Recording(_, _) => s.up && s.worker.Answered?
    case Cancelling(_, _) => s.up
    case Reconciling(_) => s.up && s.worker.Idle?
    case Pruning(_) => s.up
    case Crash => true
    case Start(_) => !s.up
  }

  function Next(s: System, step: Step): System
    requires Enabled(s, step)
  {
    match step
    case Claiming(at, valid, w) =>
      var k := s.mem.delivery.value.attempts + 1;
      if !valid then Update(s, With(s.mem, Failed, Finished), w)
      else
        var c := Copy(Some(s.mem.delivery.value.(status := Sending, attempts := k)), s.mem.history + [Claim(k, at)]);
        Update(s, c, w).(worker := if !s.broken && w.Stored? then Claimed(k) else Idle)
    case Posting(a) =>
      var e := Send(s.worker.attempt);
      s.(mem := s.mem.(history := s.mem.history + [e]), disk := s.disk.(history := s.disk.history + [e]),
         worker := Answered(s.worker.attempt, a))
    case Recording(finished, w) =>
      var k, d := s.worker.attempt, s.mem.delivery;
      (if d.Some? && d.value.status == Sending && d.value.attempts == k
       then Update(s, Recorded(s.mem, k, s.worker.answer, finished), w) else s).(worker := Idle)
    case Cancelling(sendingToo, w) =>
      if s.mem.delivery.Some? && (s.mem.delivery.value.status in {Pending, Retry} ||
                                  (sendingToo && s.mem.delivery.value.status == Sending))
      then Update(s, With(s.mem, Failed, Finished), w) else s
    case Reconciling(w) =>
      if s.mem.delivery.Some? && s.mem.delivery.value.status == Sending
      then Update(s, With(s.mem, Uncertain, Finished), w) else s
    case Pruning(w) =>
      if s.mem.delivery.Some? && s.mem.delivery.value.status in {Sent, Failed}
      then Update(s, s.mem.(delivery := None), w) else s
    case Crash => s.(up := false, worker := Idle)
    case Start(w) =>
      var c := Recovered(s.disk);
      if w.Stored? then System(c, c, false, true, Idle) else if w.UnsureNew? then s.(disk := c) else s
  }

  /** What a copy says about its history. */
  predicate Agrees(c: Copy, created: int) {
    var p := PhaseOf(c.history, created);
    if c.delivery.None? then p.Over?
    else
      var d := c.delivery.value;
      match d.status
      case Pending => d.attempts == 0 && p == Ready(0, d.nextAttempt)
      case Retry => 1 <= d.attempts < MAX_ATTEMPTS && p == Ready(d.attempts, d.nextAttempt)
      case Sending => p == Open(d.attempts) || p == Out(d.attempts)
      case _ => p.Over?
  }

  predicate WorkerFits(c: Copy, worker: Worker, created: int) {
    match worker
    case Idle => true
    case Claimed(k) => InFlight(PhaseOf(c.history, created), k)
    case Answered(k, _) => PhaseOf(c.history, created) in {Out(k), Over(None)}
  }

  predicate Inv(s: System, created: int) {
    && Agrees(s.disk, created) && WorkerFits(s.disk, s.worker, created)
    && Agrees(s.mem, created) && WorkerFits(s.mem, s.worker, created)
    && (s.up && !s.broken ==> s.mem == s.disk)
    && (s.worker.Answered? ==> s.worker.answer.status in {Sent, Retry, Failed, Uncertain})
  }

  lemma EndAgrees(c: Copy, status: Status, worker: Worker, created: int)
    requires Agrees(c, created) && WorkerFits(c, worker, created) && c.delivery.Some?
    requires status in {Sent, Failed, Uncertain}
    ensures Agrees(With(c, status, Finished), created) && WorkerFits(With(c, status, Finished), worker, created)
  {
    hide PhaseOf;
    PhaseAppend(c.history, created, Finished);
  }

  lemma UpdateKeeps(s: System, c: Copy, w: Write, created: int)
    requires Inv(s, created) && Agrees(c, created) && WorkerFits(c, s.worker, created)
    ensures Inv(Update(s, c, w), created)
  {
    hide PhaseOf;
  }

  lemma ClaimKeeps(s: System, at: int, w: Write, created: int)
    requires Inv(s, created) && Enabled(s, Claiming(at, true, w))
    ensures Inv(Next(s, Claiming(at, true, w)), created)
  {
    hide PhaseOf;
    var k := s.mem.delivery.value.attempts + 1;
    PhaseAppend(s.mem.history, created, Claim(k, at));
  }

  lemma SendAgrees(c: Copy, k: nat, a: Answer, created: int)
    requires Agrees(c, created) && InFlight(PhaseOf(c.history, created), k)
    ensures var e := c.(history := c.history + [Send(k)]);
      Agrees(e, created) && WorkerFits(e, Answered(k, a), created)
  {
    hide PhaseOf;
    PhaseAppend(c.history, created, Send(k));
  }

  lemma SendKeeps(s: System, a: Answer, created: int)
    requires Inv(s, created) && Enabled(s, Posting(a))
    ensures Inv(Next(s, Posting(a)), created)
  {
    hide PhaseOf;
    SendAgrees(s.mem, s.worker.attempt, a, created);
    SendAgrees(s.disk, s.worker.attempt, a, created);
  }

  /** A retry is scheduled no sooner than two to the power of the attempt seconds later, or as long as
      the service asked. */
  lemma RecordedAgrees(c: Copy, k: nat, a: Answer, finished: int, created: int)
    requires Agrees(c, created) && PhaseOf(c.history, created) == Out(k)
    requires c.delivery.Some? && c.delivery.value.status == Sending && c.delivery.value.attempts == k
    requires a.status in {Sent, Retry, Failed, Uncertain}
    ensures Agrees(Recorded(c, k, a, finished), created)
    ensures var d := Recorded(c, k, a, finished).delivery.value;
      d.status == Retry ==> d.nextAttempt >= finished + Pow2(k) * SECOND && d.nextAttempt >= finished + a.wait
  {
    hide PhaseOf;
    PhaseAppend(c.history, created, Finished);
    PhaseAppend(c.history, created, RetryAfter(k, RetryTime(finished, k, a.wait)));
    OutWithinLimit(c.history, created);
  }

  lemma {:induction false} OutWithinLimit(log: seq<Entry>, created: int)
    ensures match PhaseOf(log, created)
      case Ready(k, _) => k < MAX_ATTEMPTS
      case Open(k) => 1 <= k <= MAX_ATTEMPTS
      case Out(k) => 1 <= k <= MAX_ATTEMPTS
      case Over(f) => f.Some? ==> 1 <= f.value <= MAX_ATTEMPTS
      case Illegal => true
    decreases |log|
  {
    if log != [] { OutWithinLimit(log[..|log|-1], created); }
  }

  lemma RecordKeeps(s: System, finished: int, w: Write, created: int)
    requires Inv(s, created) && Enabled(s, Recording(finished, w))
    ensures Inv(Next(s, Recording(finished, w)), created)
  {
    hide PhaseOf, RetryTime;
    var k, a, d := s.worker.attempt, s.worker.answer, s.mem.delivery;
    var idle := s.(worker := Idle);
    if d.Some? && d.value.status == Sending && d.value.attempts == k {
      RecordedAgrees(s.mem, k, a, finished, created);
      UpdateKeeps(idle, Recorded(s.mem, k, a, finished), w, created);
      assert Next(s, Recording(finished, w)) == Update(idle, Recorded(s.mem, k, a, finished), w);
    }
  }

  /** Every step of the panel, the worker, the store and the operating system keeps the invariant. */
  lemma StepKeeps(s: System, step: Step, created: int)
    requires Inv(s, created) && Enabled(s, step)
    ensures Inv(Next(s, step), created)
  {
    hide PhaseOf, Recorded;
    match step
    case Claiming(at, valid, w) =>
      if valid { ClaimKeeps(s, at, w, created); }
      else {
        EndAgrees(s.mem, Failed, s.worker, created);
        UpdateKeeps(s, With(s.mem, Failed, Finished), w, created);
      }
    case Posting(a) => SendKeeps(s, a, created);
    case Recording(finished, w) => RecordKeeps(s, finished, w, created);
    case Cancelling(sendingToo, w) =>
      if s.mem.delivery.Some? {
        EndAgrees(s.mem, Failed, s.worker, created);
        UpdateKeeps(s, With(s.mem, Failed, Finished), w, created);
      }
    case Reconciling(w) =>
      if s.mem.delivery.Some? {
        EndAgrees(s.mem, Uncertain, s.worker, created);
        UpdateKeeps(s, With(s.mem, Uncertain, Finished), w, created);
      }
    case Pruning(w) =>
      if s.mem.delivery.Some? && s.mem.delivery.value.status in {Sent, Failed} {
        UpdateKeeps(s, s.mem.(delivery := None), w, created);
      }
    case Crash =>
    case Start(w) =>
      if s.disk.delivery.Some? {
        EndAgrees(s.disk, Uncertain, Idle, created);
        EndAgrees(s.disk, Uncertain, s.worker, created);
      }
  }

  function Queued(created: int): System {
    var c := Copy(Some(Delivery(Pending, 0, created)), []);
    System(c, c, false, true, Idle)
  }

  predicate Runs(s: System, steps: seq<Step>)
    decreases |steps|
  {
    steps == [] || (Enabled(s, steps[0]) && Runs(Next(s, steps[0]), steps[1..]))
  }

  function Final(s: System, steps: seq<Step>): System
    requires Runs(s, steps)
    decreases |steps|
  {
    if steps == [] then s else Final(Next(s, steps[0]), steps[1..])
  }

  lemma {:induction false} RunKeeps(s: System, steps: seq<Step>, created: int)
    requires Inv(s, created) && Runs(s, steps)
    ensures Inv(Final(s, steps), created)
    decreases |steps|
  {
    if steps != [] {
      StepKeeps(s, steps[0], created);
      RunKeeps(Next(s, steps[0]), steps[1..], created);
    }
  }

  /** Over every interleaving: the history on disk follows the protocol, so at most five sends happen,
      each after a durable claim. */
  lemma EveryRunIsLawful(steps: seq<Step>, created: int)
    requires Runs(Queued(created), steps)
    ensures Follows(Final(Queued(created), steps).disk.history, created)
    ensures |Sends(Final(Queued(created), steps).disk.history)| <= MAX_ATTEMPTS
  {
    RunKeeps(Queued(created), steps, created);
    AtMostFiveSends(Final(Queued(created), steps).disk.history, created);
  }

  /** Whoever sends has a claim on disk that is still open, or was cancelled while in flight. */
  lemma SendHasDurableClaim(steps: seq<Step>, a: Answer, created: int)
    requires Runs(Queued(created), steps) && Enabled(Final(Queued(created), steps), Posting(a))
    ensures var s := Final(Queued(created), steps);
      InFlight(PhaseOf(s.disk.history, created), s.worker.attempt)
        && InFlight(PhaseOf(s.mem.history, created), s.worker.attempt)
  {
    RunKeeps(Queued(created), steps, created);
  }

  // ---- what an answer settles ----

  predicate NeverWaits(c: Copy) {
    c.delivery.None? || c.delivery.value.status in {Sending, Sent, Failed, Uncertain}
  }

  /** The worker is done with the delivery, whatever is still to be written about it. */
  predicate Answerable(s: System) {
    && NeverWaits(s.mem) && NeverWaits(s.disk) && !s.worker.Claimed?
    && (s.worker.Answered? ==> s.worker.answer.status in {Sent, Failed, Uncertain})
  }

  lemma AnswerIsFinal(s: System, step: Step)
    requires Answerable(s) && Enabled(s, step)
    ensures Answerable(Next(s, step)) && !step.Posting?
  {
  }

  lemma {:induction false} AnsweredRuns(s: System, steps: seq<Step>, i: nat)
    requires Answerable(s) && Runs(s, steps) && i < |steps|
    ensures !steps[i].Posting?
    decreases |steps|
  {
    AnswerIsFinal(s, steps[0]);
    if i > 0 { AnsweredRuns(Next(s, steps[0]), steps[1..], i - 1); }
  }

  lemma PostedIsAnswerable(s: System, a: Answer, created: int)
    requires Inv(s, created) && Enabled(s, Posting(a)) && a.status != Retry
    ensures Answerable(Next(s, Posting(a)))
  {
    hide PhaseOf;
  }

  lemma {:induction false} PostedOnceFrom(s: System, steps: seq<Step>, created: int, i: nat, j: nat)
    requires Inv(s, created) && Runs(s, steps) && i < j < |steps|
    requires steps[i].Posting? && steps[i].answer.status != Retry
    ensures !steps[j].Posting?
    decreases |steps|
  {
    hide Inv, Answerable, Next, Enabled;
    if i > 0 {
      StepKeeps(s, steps[0], created);
      PostedOnceFrom(Next(s, steps[0]), steps[1..], created, i - 1, j - 1);
    } else {
      PostedIsAnswerable(s, steps[0].answer, created);
      AnsweredRuns(Next(s, steps[0]), steps[1..], j - 1);
    }
  }

  /** Once the service has answered anything but "retry", nothing is posted again in that run, whatever
      crashes, fails to be written, or is cancelled. */
  lemma AnsweredIsNeverPostedAgain(steps: seq<Step>, created: int, i: nat, j: nat)
    requires Runs(Queued(created), steps) && i < j < |steps|
    requires steps[i].Posting? && steps[i].answer.status != Retry
    ensures !steps[j].Posting?
  {
    PostedOnceFrom(Queued(created), steps, created, i, j);
  }

  /** What recording an answer owes: exactly that answer, a retry up to the fourth attempt with its time, and a
      fifth retry as failed; but nothing once the delivery is no longer being sent. */
  ghost predicate Stores(s: System, t: System, finished: int)
    requires s.worker.Answered?
  {
    var a, k := s.worker.answer, s.worker.attempt;
    && t.worker == Idle && t.mem == t.disk
    && (!(s.disk.delivery.Some? && s.disk.delivery.value.status == Sending) ==> t.disk == s.disk)
    && (s.disk.delivery.Some? && s.disk.delivery.value.status == Sending ==>
          && 1 <= k <= 5 && t.disk.delivery.Some? && t.disk.delivery.value.attempts == k
          && (a.status != Retry ==> t.disk.delivery.value.status == a.status)
          && (a.status == Retry && k == 5 ==> t.disk.delivery.value.status == Failed)
          && (a.status == Retry && k < 5 ==>
                var least := if k == 1 then 2 else if k == 2 then 4 else if k == 3 then 8 else 16;
                t.disk.delivery.value == Delivery(Retry, k,
                  finished + if a.wait > least * 1_000_000_000 then a.wait else least * 1_000_000_000)))
  }

  lemma RecordingStoresAt(s: System, finished: int, created: int)
    requires Inv(s, created) && Enabled(s, Recording(finished, Stored)) && !s.broken
    ensures Stores(s, Next(s, Recording(finished, Stored)), finished)
  {
    hide PhaseOf;
    OutWithinLimit(s.disk.history, created);
    Powers();
  }

  /** Over every run an answer that can be written is recorded so. */
  lemma RecordingStores(steps: seq<Step>, created: int, finished: int)
    requires Runs(Queued(created), steps) && Enabled(Final(Queued(created), steps), Recording(finished, Stored))
    requires !Final(Queued(created), steps).broken
    ensures var s := Final(Queued(created), steps); Stores(s, Next(s, Recording(finished, Stored)), finished)
  {
    RunKeeps(Queued(created), steps, created);
    RecordingStoresAt(Final(Queued(created), steps), finished, created);
  }

  lemma Powers()
    ensures Pow2(1) == 2 && Pow2(2) == 4 && Pow2(3) == 8 && Pow2(4) == 16
  {
    assert Pow2(0) == 1;
  }

  /** A claim whose result was lost is never retried: it is recorded as uncertain, by the worker or at the
      next start. */
  lemma LostResultIsUncertain(s: System, w: Write)
    requires w.Stored? || w.UnsureNew?
    ensures s.up && s.worker.Idle? && !s.broken && s.mem.delivery.Some? && s.mem.delivery.value.status == Sending ==>
      var d := Next(s, Reconciling(w)).disk.delivery;
      d == Some(s.mem.delivery.value.(status := Uncertain))
    ensures !s.up && s.disk.delivery.Some? && s.disk.delivery.value.status == Sending ==>
      var d := Next(s, Start(w)).disk.delivery;
      d == Some(s.disk.delivery.value.(status := Uncertain))
  {
  }

  /** A cancellation that is stored ends the delivery as failed while it waits, and while it is being sent only
      if it takes that in; it changes nothing else. */
  lemma CancellingStores(s: System, sendingToo: bool)
    requires Enabled(s, Cancelling(sendingToo, Stored)) && !s.broken && s.mem.delivery.Some?
    ensures var d, t := s.mem.delivery.value, Next(s, Cancelling(sendingToo, Stored));
      if d.status == Pending || d.status == Retry || (d.status == Sending && sendingToo)
      then t.mem.delivery == t.disk.delivery == Some(d.(status := Failed)) else t == s
  {
  }

  // ---- writes that may be lost, and crashes ----

  predicate Writes(step: Step) { !step.Posting? && !step.Crash? }

  /** A write that would change what is stored, of which it is not known whether it was kept, blocks every
      further write. */
  lemma UnsureWriteBlocks(s: System, step: Step)
    requires Writes(step) && !step.Start? && (step.w.UnsureOld? || step.w.UnsureNew?)
    requires Enabled(s, step) && !s.broken
    ensures Enabled(s, step.(w := Stored))
    ensures Next(s, step.(w := Stored)).disk.delivery != s.disk.delivery && s.mem == s.disk ==> Next(s, step).broken
    ensures Next(s, step).mem.delivery == s.mem.delivery
  {
  }

  /** From then until the process has been started again nothing is stored and nothing is claimed. */
  lemma {:induction false} BlockedUntilStart(s: System, steps: seq<Step>)
    requires s.broken && Runs(s, steps) && forall step <- steps :: !step.Start?
    ensures Final(s, steps).broken && Final(s, steps).disk.delivery == s.disk.delivery
    ensures Final(s, steps).worker.Claimed? ==> s.worker.Claimed?
    decreases |steps|
  {
    if steps != [] { BlockedUntilStart(Next(s, steps[0]), steps[1..]); }
  }

  /** After a crash nothing happens but a start, and a start that can write takes up what is on disk. */
  lemma CrashThenStart(s: System, step: Step)
    ensures var t := Next(s, Crash);
      && (Enabled(t, step) ==> step.Start? || step.Crash?) && t.disk == s.disk
      && var u := Next(t, Start(Stored));
      && u.up && !u.broken && u.worker == Idle && u.mem == u.disk
      && (s.disk.delivery.None? || s.disk.delivery.value.status != Sending ==> u.disk == s.disk)
  {
  }

  // ---- when a message leaves after its delivery was cancelled ----

  predicate Settled(c: Copy) {
    c.delivery.None? || c.delivery.value.status in {Sent, Failed, Uncertain}
  }

  /** Nothing more will be sent. */
  predicate Silent(s: System) { Settled(s.mem) && Settled(s.disk) && !s.worker.Claimed? }

  lemma SilentStays(s: System, step: Step)
    requires Silent(s) && Enabled(s, step)
    ensures Silent(Next(s, step)) && !step.Posting?
  {
  }

  lemma {:induction false} SilentRuns(s: System, steps: seq<Step>, i: nat)
    requires Silent(s) && Runs(s, steps) && i < |steps|
    ensures !steps[i].Posting?
    decreases |steps|
  {
    SilentStays(s, steps[0]);
    if i > 0 { SilentRuns(Next(s, steps[0]), steps[1..], i - 1); }
  }

  /** The cancellation applies: the delivery waits, or is being sent and the cancellation takes that in. */
  predicate Cancels(s: System, sendingToo: bool) {
    s.mem.delivery.Some? && (s.mem.delivery.value.status in {Pending, Retry} ||
                             (sendingToo && s.mem.delivery.value.status == Sending))
  }

  predicate Posts(steps: seq<Step>) { exists i :: 0 <= i < |steps| && steps[i].Posting? }

  /** Some continuation sends the message. */
  ghost predicate MayLeave(s: System) { exists steps: seq<Step> :: Runs(s, steps) && Posts(steps) }

  /** After a cancellation the message can still leave if and only if the worker had claimed it and not yet
      sent it. */
  lemma CancelledLeavesIffClaimed(s: System, sendingToo: bool, created: int)
    requires Inv(s, created) && s.up && !s.broken && Cancels(s, sendingToo)
    ensures MayLeave(Next(s, Cancelling(sendingToo, Stored))) <==> s.worker.Claimed?
  {
    var t := Next(s, Cancelling(sendingToo, Stored));
    if s.worker.Claimed? {
      var steps := [Posting(Answer(Sent, 0))];
      assert steps[1..] == [] && Runs(Next(t, steps[0]), []);
      assert Runs(t, steps) && steps[0].Posting? && Posts(steps);
    } else {
      forall steps: seq<Step> | Runs(t, steps) ensures !Posts(steps) {
        forall i | 0 <= i < |steps| ensures !steps[i].Posting? { SilentRuns(t, steps, i); }
      }
    }
  }

  /** A delivery that still waits is never claimed, so cancelling it then is final. */
  lemma WaitingIsNotClaimed(s: System, created: int)
    requires Inv(s, created) && s.mem.delivery.Some? && s.mem.delivery.value.status in {Pending, Retry}
    ensures !s.worker.Claimed?
  {
  }

  /** A message may leave after its delivery was cancelled: claim, stop the server, send. */
  lemma CancelledButSent(created: int) returns (steps: seq<Step>)
    ensures Runs(Queued(created), steps)
    ensures Final(Queued(created), steps).disk.history == [Claim(1, created), Finished, Send(1)]
    ensures Final(Queued(created), steps).mem.delivery.Some?
      && Final(Queued(created), steps).mem.delivery.value.status == Failed
  {
    var s0 := Queued(created);
    var a, b, c := Claiming(created, true, Stored), Cancelling(true, Stored), Posting(Answer(Sent, 0));
    steps := [a, b, c];
    var s1 := Next(s0, a);
    var s2 := Next(s1, b);
    var s3 := Next(s2, c);
    assert steps[1..] == [b, c] && steps[1..][1..] == [c] && steps[1..][1..][1..] == [];
    assert Runs(s3, []) && Final(s3, []) == s3;
    assert Runs(s2, [c]) && Final(s2, [c]) == s3;
    assert Runs(s1, [b, c]) && Final(s1, [b, c]) == s3;
    assert [] + [Claim(1, created)] + [Finished] + [Send(1)] == [Claim(1, created), Finished, Send(1)];
  }
}
