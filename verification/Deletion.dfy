/** The deletion of one server over its whole life: requests, retries, deadlines and the receipt. */
module Deletion {
  import opened Options
  import opened Manifest
  import opened Cluster
  import opened References
  import opened Removal
  import opened Inspection

  const DELETION_TIMEOUT := 600_000_000_000

  datatype Status = Deleting | Stale | OtherStatus
  datatype Record = Record(mode: Mode, plan: Plan, deadline: Option<int>, completed: bool)
  datatype Answer = Conflict | Done | Accepted | NotFound | Failed

  function ContextOf(s: Server, r: Record, state: State, panelNamespace: bool): Context {
    Context(s.ns, s.release, r.mode, r.plan, s.id, state, panelNamespace)
  }

  lemma WithinIgnoresState(t: seq<Step>, from: nat, s: Server, r: Record, q: Record, a: State, b: State,
                           x: bool, y: bool, digest: string -> string)
    requires r.mode == q.mode && r.plan == q.plan && Within(t, from, ContextOf(s, r, a, x), digest)
    ensures Within(t, from, ContextOf(s, q, b, y), digest)
  {
  }

  ghost predicate FinishedAt(t: seq<Step>, from: nat, to: nat, c: Context) {
    to <= |t| && Finished(t[..to], from, c)
  }

  predicate Expired(r: Record, now: int) { r.deadline.None? || now >= r.deadline.value }

  /** The answer to a request for a deletion that has a receipt, and what it leaves: another mode is refused, a
      completed receipt is final, a deletion under way goes on, and one that went stale or ran out of time gets
      ten minutes more; nothing changes that cannot be written. */
  predicate Answers(before: Record, was: Option<Status>, mode: Mode, now: int, kept: bool, answer: Answer,
                    after: Record, status: Option<Status>)
  {
    if before.mode != mode then (answer, after, status) == (Conflict, before, was)
    else if before.completed then (answer, after, status) == (Done, before, was)
    else if was.None? then (answer, after, status) == (NotFound, before, was)
    else if before.deadline != None && now < before.deadline.value && was == Some(Deleting) then
      (answer, after, status) == (Accepted, before, was)
    else if !kept then (answer, after, status) == (Failed, before, was)
    else if before.deadline != None && now < before.deadline.value && was != Some(Stale) then
      (answer, after, status) == (Accepted, before, Some(Deleting))
    else
      (answer, after, status) ==
        (Accepted, Record(before.mode, before.plan, Some(now + 600_000_000_000), false), Some(Deleting))
  }

  /** What one round of the reconciler leaves. `ok` says whether it ran an attempt and that succeeded. Nothing
      happens to a deletion that is over, gone or stale; one out of time goes stale, before or after the attempt;
      and it is completed exactly after a success in time that can be written. */
  predicate Leaves(before: Record, was: Option<Status>, started: int, ended: int, kept: bool, stopping: bool, ran: bool,
                   ok: bool, after: Record, status: Option<Status>)
  {
    if before.completed || was.None? || was == Some(Stale) then !ran && (after, status) == (before, was)
    else if before.deadline == None || started >= before.deadline.value then
      !ran && (after, status) == (before, if kept then Some(Stale) else was)
    else if was != Some(Deleting) && !kept then !ran && (after, status) == (before, was)
    else
      && ran
      && (after, status) ==
           if stopping then (before, Some(Deleting))
           else if ended >= before.deadline.value then (before, if kept then Some(Stale) else Some(Deleting))
           else if ok && kept then (Record(before.mode, before.plan, before.deadline, true), None)
           else (before, Some(Deleting))
  }

  class Deletion {
    const server: Server
    const cluster: Cluster
    var record: Option<Record>
    var status: Option<Status>        // none once the inventory entry is gone
    ghost const nothing: State

    /** What holds at every moment of every run. */
    ghost predicate Valid()
      reads this, cluster
    {
      && (record.None? ==> Quiet(cluster.trace, 0))
      && (record.Some? ==> WellFormed(record.value.plan, server))
      && (record.Some? ==> Within(cluster.trace, 0, ContextOf(server, record.value, nothing, false), cluster.digest))
      && (record.Some? && record.value.completed ==> status.None? && exists from, to, state, panel ::
            FinishedAt(cluster.trace, from, to, ContextOf(server, record.value, state, panel)))
    }

    constructor (server: Server, cluster: Cluster)
      requires cluster.trace == []
      ensures Valid() && this.server == server && this.cluster == cluster
    {
      this.server, this.cluster := server, cluster;
      record, status := None, Some(OtherStatus);
      nothing := State(map[], map[], {});
    }

    /** As long as no deletion was requested, or one that keeps the world, no claim was deleted under its
        name and UID, and no uninstall removed one. */
    lemma KeptClaimsSurvive()
      requires Valid() && (record.None? || record.value.mode == KeepWorld)
      ensures forall i :: 0 <= i < |cluster.trace| && cluster.trace[i].Deleted? ==> cluster.trace[i].id.kind != Claim
      ensures forall i, id ::
        0 <= i < |cluster.trace| && cluster.trace[i].Uninstalled? && id in cluster.trace[i].removed ==> id.kind != Claim
    {
      var t := cluster.trace;
      forall i | 0 <= i < |t| && t[i].Deleted? ensures t[i].id.kind != Claim {
        assert t[i].id in NotStorage(record.value.plan);
      }
    }

    /** Whatever the mode, an uninstall never removes a claim, and the only claims ever deleted are the worlds
        and seeds of the one recorded plan, each under its recorded UID. */
    lemma PurgedClaimsAreRecorded()
      requires Valid()
      ensures forall i :: 0 <= i < |cluster.trace| && cluster.trace[i].Deleted? && cluster.trace[i].id.kind == Claim ==>
        record.Some? && record.value.mode != KeepWorld
          && cluster.trace[i].id in record.value.plan.worlds + record.value.plan.seeds
      ensures forall i, id ::
        0 <= i < |cluster.trace| && cluster.trace[i].Uninstalled? && id in cluster.trace[i].removed ==> id.kind != Claim
    {
      var t := cluster.trace;
      forall i | 0 <= i < |t| && t[i].Deleted? && t[i].id.kind == Claim
        ensures record.Some? && record.value.mode != KeepWorld
        ensures t[i].id in record.value.plan.worlds + record.value.plan.seeds
      {
        if record.value.mode == KeepWorld { KeptClaimsSurvive(); }
        assert t[i].id in AllRefs(record.value.plan);
      }
    }

    /** A request to delete. The recorded mode never changes, a completed receipt is final, an active
        deadline is not extended, and only a first request draws up a plan. `kept` says whether the state
        could be written. */
    method Request(mode: Mode, now: int, state: State, panelNamespace: bool, kept: bool) returns (answer: Answer)
      requires Valid()
      modifies this, cluster
      ensures Valid() && old(cluster.trace) <= cluster.trace && Quiet(cluster.trace, |old(cluster.trace)|)
      ensures old(record).Some? ==>
        && cluster.trace == old(cluster.trace) && record.Some?
        && Answers(old(record).value, old(status), mode, now, kept, answer, record.value, status)
      ensures old(record).None? && old(status).None? ==>
        answer == NotFound && record.None? && status.None? && cluster.trace == old(cluster.trace)
      ensures old(record).None? && old(status).Some? ==>
        match answer
        case Accepted =>
          && kept && status == Some(Deleting) && record.Some?
          && record.value == Record(mode, record.value.plan, Some(now + 600_000_000_000), false)
          && Evidence(cluster.trace, |old(cluster.trace)|, record.value.plan, server, mode)
        case Failed => !kept && record.None? && status == old(status)
        case Conflict =>
          && record.None? && status == old(status)
          && (!cluster.failed ==> NoPlan(cluster.trace, |old(cluster.trace)|, server, state, mode, panelNamespace,
                                         cluster.decode))
        case _ => false
    {
      hide WellFormed, Within, Quiet, Evidence, Finished, NoPlan, FoundClear, NothingMissed;
      NothingQuiet(cluster.trace);
      if record.Some? {
        answer := Again(mode, now, kept);
        return;
      }
      if status.None? { return NotFound; }
      var plan := Inspect(cluster, server, state, mode, panelNamespace);
      QuietGrows(old(cluster.trace), cluster.trace, 0);
      if plan.None? { return Conflict; }
      if !kept { return Failed; }
      record := Some(Record(mode, plan.value, Some(now + DELETION_TIMEOUT), false));
      status := Some(Deleting);
      QuietWithin(cluster.trace, 0, ContextOf(server, record.value, nothing, false), cluster.digest);
      return Accepted;
    }

    /** A request for a server that already has a receipt. */
    method Again(mode: Mode, now: int, kept: bool) returns (answer: Answer)
      requires Valid() && record.Some?
      modifies this
      ensures Valid() && record.Some?
      ensures Answers(old(record).value, old(status), mode, now, kept, answer, record.value, status)
    {
      hide WellFormed, Within, Quiet, Finished;
      var r := record.value;
      if r.mode != mode { return Conflict; }
      if r.completed { return Done; }
      if status.None? { return NotFound; }
      if r.deadline.Some? && now < r.deadline.value && status != Some(Stale) {
        if status == Some(Deleting) { return Accepted; }
        if !kept { return Failed; }
        status := Some(Deleting);
        return Accepted;
      }
      if !kept { return Failed; }
      record := Some(r.(deadline := Some(now + DELETION_TIMEOUT)));
      status := Some(Deleting);
      WithinIgnoresState(cluster.trace, 0, server, r, record.value, nothing, nothing, false, false, cluster.digest);
      return Accepted;
    }

    /** One round of the reconciler. The receipt is completed only by an attempt that saw everything
        finished before the deadline; `kept` says which of its state writes succeed, `stopping` whether the
        panel is shutting down. */
    method Reconcile(started: int, ended: int, state: State, panelNamespace: bool, kept: bool, stopping: bool)
      returns (ghost ran: bool, ghost mid: nat, ghost checked: Option<bool>, ghost ok: bool)
      requires Valid()
      modifies this, cluster
      ensures Valid() && old(cluster.trace) <= cluster.trace
      ensures !ran ==> cluster.trace == old(cluster.trace)
      ensures old(record).None? ==> !ran && record.None? && status == old(status)
      ensures old(record).Some? ==>
        && record.Some?
        && Leaves(old(record).value, old(status), started, ended, kept, stopping, ran, ok, record.value, status)
      ensures ran && ok ==>
        && |old(cluster.trace)| <= mid
        && Finished(cluster.trace, mid, ContextOf(server, record.value, state, panelNamespace))
      ensures ran && !ok && !cluster.failed ==> Stopped(cluster.trace, |old(cluster.trace)|, mid, checked,
        ContextOf(server, record.value, state, panelNamespace), cluster.digest, cluster.decode)
    {
      hide WellFormed, Within, Quiet, Finished, AllFit, StorageLast, Forbidden, Obstacle, SeenClear;
      ran, mid, checked, ok := false, 0, None, false;
      if record.None? || record.value.completed || status.None? || status == Some(Stale) { return; }
      var r := record.value;
      if Expired(r, started) {
        MarkStale(kept);
        return;
      }
      if status != Some(Deleting) {
        if !kept { return; }
        status := Some(Deleting);
      }
      ghost var t := cluster.trace;
      var c := ContextOf(server, r, state, panelNamespace);
      var done;
      done, mid, checked := RemoveServer(cluster, c);
      ran, ok := true, done;
      WithinIgnoresState(t, 0, server, r, r, nothing, state, false, panelNamespace, cluster.digest);
      WithinGrows(t, cluster.trace, 0, c, cluster.digest);
      WithinIgnoresState(cluster.trace, 0, server, r, r, state, nothing, panelNamespace, false, cluster.digest);
      if stopping { return; }
      if Expired(r, ended) {
        MarkStale(kept);
        return;
      }
      if !done || !kept { return; }
      record, status := Some(r.(completed := true)), None;
      var d := record.value;
      WithinIgnoresState(cluster.trace, 0, server, r, d, nothing, nothing, false, false, cluster.digest);
      FinishedIgnoresCompletion(cluster.trace, mid, server, r, d, state, panelNamespace);
      assert cluster.trace[..|cluster.trace|] == cluster.trace;
      assert FinishedAt(cluster.trace, mid, |cluster.trace|, ContextOf(server, d, state, panelNamespace));
    }

    method MarkStale(kept: bool)
      requires Valid() && record.Some? && !record.value.completed && status.Some?
      modifies this
      ensures Valid() && record == old(record) && status == if kept then Some(Stale) else old(status)
    {
      if kept { status := Some(Stale); }
    }
  }

  /** What stopped an attempt in which no request failed: what its checks saw, or what it met afterwards. */
  ghost predicate Stopped(t: seq<Step>, from: nat, mid: nat, checked: Option<bool>, c: Context,
                          digest: string -> string, decode: string -> seq<Document>)
  {
    if checked.None? then Forbidden(t, from, c, digest, decode) else from <= mid && Obstacle(t, mid, c)
  }

  lemma FinishedIgnoresCompletion(t: seq<Step>, from: nat, s: Server, r: Record, q: Record, state: State, panel: bool)
    requires r.mode == q.mode && r.plan == q.plan && Finished(t, from, ContextOf(s, r, state, panel))
    ensures Finished(t, from, ContextOf(s, q, state, panel))
  {
    assert ContextOf(s, r, state, panel) == ContextOf(s, q, state, panel);
  }
}
