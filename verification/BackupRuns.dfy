/** Reconciling the recorded backup runs with what the repository really holds. */
module BackupRuns {
  import opened Options
  import opened BackupRepository

  datatype Status = Running | Succeeded | Failed | Interrupted

  datatype Run = Run(id: Id, status: Status, manifestId: Option<Id>, bundle: Option<File>, items: nat,
                     idem: Option<Idempotency>, error: Option<nat>, updatedAt: int, rest: nat)

  const INTERRUPTED := 1   // the message of an interrupted run

  predicate UniqueRuns(runs: seq<Run>) {
    forall i, j :: 0 <= i < j < |runs| ==> runs[i].id != runs[j].id
  }

  predicate OwnManifests(runs: seq<Run>) {
    forall i :: 0 <= i < |runs| ==> runs[i].manifestId.None? || runs[i].manifestId.value == runs[i].id
  }

  predicate UniquePublications(ps: seq<Published>) {
    forall i, j :: 0 <= i < j < |ps| ==> ps[i].manifest.id != ps[j].manifest.id
  }

  /** The run records exactly this publication as its result. */
  predicate Owns(r: Run, p: Published) {
    r.status == Succeeded && r.manifestId == Some(p.manifest.id) && r.bundle == Some(p.bundle) &&
    r.items == |p.manifest.items| && r.idem == Some(p.idem) && r.error.None?
  }

  function Find(ps: seq<Published>, id: Id): Option<Published> {
    if ps == [] then None else if ps[0].manifest.id == id then Some(ps[0]) else Find(ps[1..], id)
  }

  lemma {:induction false} FindIs(ps: seq<Published>, id: Id)
    ensures Find(ps, id).Some? <==> exists i :: 0 <= i < |ps| && ps[i].manifest.id == id
    ensures Find(ps, id).Some? ==> Find(ps, id).value in ps && Find(ps, id).value.manifest.id == id
  {
    if ps != [] {
      FindIs(ps[1..], id);
      if i :| 0 <= i < |ps| && ps[i].manifest.id == id && i > 0 { assert ps[1..][i-1] == ps[i]; }
    }
  }

  lemma FindUnique(ps: seq<Published>, p: Published)
    requires UniquePublications(ps) && p in ps
    ensures Find(ps, p.manifest.id) == Some(p)
  {
    FindIs(ps, p.manifest.id);
    var q := Find(ps, p.manifest.id).value;
    var i, j :| 0 <= i < |ps| && 0 <= j < |ps| && ps[i] == p && ps[j] == q;
    assert i == j;
  }

  /** What becomes of one recorded run, given its publication if there is one. */
  function Settled(r: Run, p: Option<Published>, now: int): Run {
    if p.Some? then
      if Owns(r, p.value) then r
      else Run(r.id, Succeeded, Some(p.value.manifest.id), Some(p.value.bundle), |p.value.manifest.items|,
               Some(p.value.idem), None, now, r.rest)
    else if r.status == Running then r.(status := Interrupted, error := Some(INTERRUPTED), updatedAt := now)
    else r
  }

  /** The run recorded for a publication nobody claims. */
  function Adopted(p: Published, now: int): Run {
    Run(p.manifest.id, Succeeded, Some(p.manifest.id), Some(p.bundle), |p.manifest.items|, Some(p.idem), None, now, 0)
  }

  predicate HasRun(runs: seq<Run>, id: Id) { exists i :: 0 <= i < |runs| && runs[i].id == id }

  function Orphans(runs: seq<Run>, ps: seq<Published>, now: int): seq<Run> {
    if ps == [] then []
    else Orphans(runs, ps[..|ps|-1], now) +
         if HasRun(runs, ps[|ps|-1].manifest.id) then [] else [Adopted(ps[|ps|-1], now)]
  }

  function SettleAll(runs: seq<Run>, ps: seq<Published>, now: int): seq<Run> {
    seq(|runs|, i requires 0 <= i < |runs| => Settled(runs[i], Find(ps, runs[i].id), now))
  }

  function Reconciled(runs: seq<Run>, ps: seq<Published>, now: int): seq<Run> {
    SettleAll(runs, ps, now) + Orphans(runs, ps, now)
  }

  lemma {:induction false} OrphansAre(runs: seq<Run>, ps: seq<Published>, now: int)
    ensures forall p <- ps :: !HasRun(runs, p.manifest.id) ==> Adopted(p, now) in Orphans(runs, ps, now)
    ensures forall r <- Orphans(runs, ps, now) :: exists p ::
      p in ps && r == Adopted(p, now) && !HasRun(runs, p.manifest.id)
    ensures UniquePublications(ps) ==> UniqueRuns(Orphans(runs, ps, now))
    decreases |ps|
  {
    if ps != [] {
      var init, last := ps[..|ps|-1], ps[|ps|-1];
      OrphansAre(runs, init, now);
      assert forall p :: p in ps <==> p in init || p == last;
      if UniquePublications(ps) {
        assert UniquePublications(init);
        forall r | r in Orphans(runs, init, now) ensures r.id != last.manifest.id {
          var p :| p in init && r == Adopted(p, now);
          var i :| 0 <= i < |init| && init[i] == p;
          assert ps[i].manifest.id != ps[|ps|-1].manifest.id;
        }
      }
    }
  }

  lemma ReconciledRuns(runs: seq<Run>, ps: seq<Published>, now: int)
    requires UniqueRuns(runs) && OwnManifests(runs) && UniquePublications(ps)
    ensures UniqueRuns(Reconciled(runs, ps, now)) && OwnManifests(Reconciled(runs, ps, now))
    ensures forall r <- Reconciled(runs, ps, now) :: r.status != Running
  {
    var out, kept, added := Reconciled(runs, ps, now), SettleAll(runs, ps, now), Orphans(runs, ps, now);
    OrphansAre(runs, ps, now);
    forall i | 0 <= i < |runs|
      ensures out[i].id == runs[i].id && out[i].status != Running
      ensures out[i].manifestId.None? || out[i].manifestId.value == out[i].id
    {
      FindIs(ps, runs[i].id);
    }
    forall i | |runs| <= i < |out|
      ensures out[i].status == Succeeded && out[i].manifestId == Some(out[i].id) && !HasRun(runs, out[i].id)
    {
      assert out[i] == added[i - |runs|] && out[i] in added;
    }
    forall i, j | 0 <= i < j < |out| ensures out[i].id != out[j].id {
      if i >= |runs| { assert out[i] == added[i - |runs|] && out[j] == added[j - |runs|]; }
      else if j >= |runs| { assert runs[i].id == out[i].id; }
    }
  }

  /** Every publication ends up owned by exactly one run, the one that carries its ID. */
  lemma EveryPublicationOwnedOnce(runs: seq<Run>, ps: seq<Published>, now: int, p: Published)
    requires UniqueRuns(runs) && OwnManifests(runs) && UniquePublications(ps) && p in ps
    ensures var out := Reconciled(runs, ps, now);
      && (exists i :: 0 <= i < |out| && Owns(out[i], p))
      && forall i, j :: 0 <= i < |out| && 0 <= j < |out| && Owns(out[i], p) && Owns(out[j], p) ==> i == j
  {
    var out := Reconciled(runs, ps, now);
    ReconciledRuns(runs, ps, now);
    FindUnique(ps, p);
    OrphansAre(runs, ps, now);
    if HasRun(runs, p.manifest.id) {
      var i :| 0 <= i < |runs| && runs[i].id == p.manifest.id;
      assert Owns(out[i], p);
    } else {
      var added := Orphans(runs, ps, now);
      var k :| 0 <= k < |added| && added[k] == Adopted(p, now);
      assert out[|runs| + k] == added[k];
    }
    forall i, j | 0 <= i < |out| && 0 <= j < |out| && Owns(out[i], p) && Owns(out[j], p) ensures i == j {
      assert out[i].id == p.manifest.id && out[j].id == p.manifest.id;
    }
  }

  /** Publications by manifest ID. */
  function Index(ps: seq<Published>): map<Id, Published> {
    if ps == [] then map[] else Index(ps[..|ps|-1])[ps[|ps|-1].manifest.id := ps[|ps|-1]]
  }

  lemma {:induction false} IndexIs(ps: seq<Published>, id: Id)
    requires UniquePublications(ps)
    ensures id in Index(ps) <==> Find(ps, id).Some?
    ensures id in Index(ps) ==> Find(ps, id) == Some(Index(ps)[id])
    decreases |ps|
  {
    FindIs(ps, id);
    if ps != [] {
      var init, last := ps[..|ps|-1], ps[|ps|-1];
      IndexIs(init, id);
      FindIs(init, id);
      FindUnique(ps, last);
      if Find(init, id).Some? { FindUnique(ps, Find(init, id).value); }
      if i :| 0 <= i < |ps| && ps[i].manifest.id == id && i < |init| { assert init[i] == ps[i]; }
    }
  }

  function ManifestsAfter(manifests: map<Id, Manifest>, ps: seq<Published>): map<Id, Manifest> {
    if ps == [] then manifests
    else ManifestsAfter(manifests, ps[..|ps|-1])[ps[|ps|-1].manifest.id := ps[|ps|-1].manifest]
  }

  lemma HasRunNext(runs: seq<Run>, i: nat, id: Id)
    requires i < |runs|
    ensures HasRun(runs[..i+1], id) <==> HasRun(runs[..i], id) || id == runs[i].id
  {
    if HasRun(runs[..i], id) {
      var k :| 0 <= k < i && runs[..i][k].id == id;
      assert runs[..i+1][k].id == id;
    }
    if id == runs[i].id { assert runs[..i+1][i].id == id; }
    if HasRun(runs[..i+1], id) {
      var k :| 0 <= k < i + 1 && runs[..i+1][k].id == id;
      if k < i { assert runs[..i][k].id == id; }
    }
  }

  // ---- the walk as the code makes it, for any manifest IDs ----

  /** The publication a run claims: the one of its own ID, or else the one its manifest ID names. */
  function KeyFor(r: Run, left: set<Id>): Option<Id> {
    if r.id in left then Some(r.id)
    else if r.manifestId.Some? && r.manifestId.value in left then r.manifestId
    else None
  }

  /** The published IDs that a list of runs leaves for the runs after it. */
  function LeftBy(runs: seq<Run>, published: set<Id>): set<Id> {
    if runs == [] then published
    else
      var left := LeftBy(runs[..|runs|-1], published);
      var key := KeyFor(runs[|runs|-1], left);
      if key.Some? then left - {key.value} else left
  }

  /** The runs after the walk, and the publications nobody claimed. */
  function Walk(runs: seq<Run>, all: map<Id, Published>, now: int): (seq<Run>, map<Id, Published>) {
    if runs == [] then ([], all)
    else
      var (before, rest) := Walk(runs[..|runs|-1], all, now);
      var r := runs[|runs|-1];
      var key := KeyFor(r, rest.Keys);
      if key.Some? then (before + [Settled(r, Some(rest[key.value]), now)], rest - {key.value})
      else (before + [Settled(r, None, now)], rest)
  }

  function Unclaimed(ps: seq<Published>, rest: map<Id, Published>, now: int): seq<Run> {
    if ps == [] then []
    else Unclaimed(ps[..|ps|-1], rest, now) +
         if ps[|ps|-1].manifest.id in rest then [Adopted(ps[|ps|-1], now)] else []
  }

  function Recovered(runs: seq<Run>, ps: seq<Published>, now: int): seq<Run> {
    var (kept, rest) := Walk(runs, Index(ps), now);
    kept + Unclaimed(ps, rest, now)
  }

  lemma {:induction false} WalkClaims(runs: seq<Run>, ps: seq<Published>, now: int)
    requires UniqueRuns(runs) && OwnManifests(runs) && UniquePublications(ps)
    ensures var (kept, rest) := Walk(runs, Index(ps), now);
      && kept == SettleAll(runs, ps, now)
      && (forall id :: id in rest <==> id in Index(ps) && !HasRun(runs, id))
      && (forall id <- rest :: rest[id] == Index(ps)[id])
    decreases |runs|
  {
    hide Index, Find;
    if runs != [] {
      var n := |runs| - 1;
      var init, r := runs[..n], runs[n];
      WalkClaims(init, ps, now);
      IndexIs(ps, r.id);
      FindIs(ps, r.id);
      assert !HasRun(init, r.id);
      assert runs[..n+1] == runs;
      forall id ensures HasRun(runs, id) <==> HasRun(init, id) || id == r.id {
        HasRunNext(runs, n, id);
      }
      assert SettleAll(runs, ps, now) == SettleAll(init, ps, now) + [Settled(r, Find(ps, r.id), now)];
    }
  }

  lemma {:induction false} UnclaimedAreOrphans(runs: seq<Run>, ps: seq<Published>, rest: map<Id, Published>, now: int)
    requires forall p <- ps :: p.manifest.id in rest <==> !HasRun(runs, p.manifest.id)
    ensures Unclaimed(ps, rest, now) == Orphans(runs, ps, now)
    decreases |ps|
  {
    if ps != [] {
      assert ps[|ps|-1] in ps;
      UnclaimedAreOrphans(runs, ps[..|ps|-1], rest, now);
    }
  }

  /** When a manifest ID is empty or the run's own, a run is settled by the publication of its ID. */
  lemma RecoveredIsReconciled(runs: seq<Run>, ps: seq<Published>, now: int)
    requires UniqueRuns(runs) && OwnManifests(runs) && UniquePublications(ps)
    ensures Recovered(runs, ps, now) == Reconciled(runs, ps, now)
  {
    hide Index;
    WalkClaims(runs, ps, now);
    var rest := Walk(runs, Index(ps), now).1;
    forall p | p in ps ensures p.manifest.id in rest <==> !HasRun(runs, p.manifest.id) {
      IndexIs(ps, p.manifest.id);
      FindUnique(ps, p);
    }
    UnclaimedAreOrphans(runs, ps, rest, now);
  }

  lemma {:induction false} WalkSettles(runs: seq<Run>, all: map<Id, Published>, now: int)
    requires forall id <- all :: all[id].manifest.id == id
    ensures var (kept, rest) := Walk(runs, all, now);
      && rest.Keys <= all.Keys && (forall id <- rest :: rest[id] == all[id])
      && (forall r <- kept :: r.status != Running)
      && (forall id <- all :: id in rest || exists i :: 0 <= i < |kept| && Owns(kept[i], all[id]))
    decreases |runs|
  {
    if runs != [] {
      var init, r := runs[..|runs|-1], runs[|runs|-1];
      WalkSettles(init, all, now);
      var (before, left) := Walk(init, all, now);
      var (kept, rest) := Walk(runs, all, now);
      assert kept[..|before|] == before;
      forall id | id in all && id !in rest ensures exists i :: 0 <= i < |kept| && Owns(kept[i], all[id]) {
        if id in left {
          assert Owns(kept[|before|], all[id]);
        } else {
          var i :| 0 <= i < |before| && Owns(before[i], all[id]);
          assert kept[i] == before[i];
        }
      }
    }
  }

  lemma {:induction false} UnclaimedAre(ps: seq<Published>, rest: map<Id, Published>, now: int)
    ensures forall p <- ps :: p.manifest.id in rest ==> Adopted(p, now) in Unclaimed(ps, rest, now)
    ensures forall r <- Unclaimed(ps, rest, now) :: r.status == Succeeded
    decreases |ps|
  {
    if ps != [] {
      UnclaimedAre(ps[..|ps|-1], rest, now);
      assert ps == ps[..|ps|-1] + [ps[|ps|-1]];
    }
  }

  /** Whatever manifest IDs the runs carry: no run is left running, and every publication has an owner. */
  lemma EveryPublicationHasOwner(runs: seq<Run>, ps: seq<Published>, now: int, p: Published)
    requires UniquePublications(ps) && p in ps
    ensures forall r <- Recovered(runs, ps, now) :: r.status != Running
    ensures exists r <- Recovered(runs, ps, now) :: Owns(r, p)
  {
    hide Index;
    KeysAreManifests(ps);
    WalkSettles(runs, Index(ps), now);
    var (kept, rest) := Walk(runs, Index(ps), now);
    UnclaimedAre(ps, rest, now);
    IndexIs(ps, p.manifest.id);
    FindUnique(ps, p);
    if p.manifest.id in rest {
      assert Owns(Adopted(p, now), p);
    } else {
      var i :| 0 <= i < |kept| && Owns(kept[i], p);
      assert kept[i] in Recovered(runs, ps, now);
    }
  }

  lemma WalkNext(runs: seq<Run>, r: Run, all: map<Id, Published>, now: int)
    ensures var (kept, rest) := Walk(runs, all, now);
      var key := KeyFor(r, rest.Keys);
      Walk(runs + [r], all, now) ==
        if key.Some? then (kept + [Settled(r, Some(rest[key.value]), now)], rest - {key.value})
        else (kept + [Settled(r, None, now)], rest)
  {
    assert (runs + [r])[..|runs + [r]|-1] == runs;
  }

  lemma WalkNone(all: map<Id, Published>, now: int)
    ensures Walk([], all, now) == ([], all)
  {
  }

  lemma {:induction false} WalkConcat(a: seq<Run>, b: seq<Run>, all: map<Id, Published>, now: int)
    ensures var (kept, rest) := Walk(a, all, now);
      var (more, left) := Walk(b, rest, now);
      Walk(a + b, all, now) == (kept + more, left)
    decreases |b|
  {
    hide Walk, Settled;
    var (kept, rest) := Walk(a, all, now);
    if b == [] {
      WalkNone(rest, now);
      assert a + b == a && kept + [] == kept;
    } else {
      var init, r := b[..|b|-1], b[|b|-1];
      WalkConcat(a, init, all, now);
      WalkNext(init, r, rest, now);
      WalkNext(a + init, r, all, now);
      assert b == init + [r] && a + b == a + init + [r];
      var (more, left) := Walk(init, rest, now);
      var key := KeyFor(r, left.Keys);
      var last := Settled(r, if key.Some? then Some(left[key.value]) else None, now);
      assert kept + more + [last] == kept + (more + [last]);
    }
  }

  lemma SettledTwice(r: Run, p: Option<Published>, now: int, later: int)
    ensures Settled(Settled(r, p, now), p, later) == Settled(r, p, now)
  {
  }

  lemma {:induction false} WalkTwice(runs: seq<Run>, all: map<Id, Published>, now: int, later: int)
    requires forall id <- all :: all[id].manifest.id == id
    ensures Walk(Walk(runs, all, now).0, all, later) == Walk(runs, all, now)
    decreases |runs|
  {
    if runs != [] {
      var init, r := runs[..|runs|-1], runs[|runs|-1];
      WalkTwice(init, all, now, later);
      WalkSettles(init, all, now);
      var (before, rest) := Walk(init, all, now);
      var key := KeyFor(r, rest.Keys);
      var p := if key.Some? then Some(rest[key.value]) else None;
      var t := Settled(r, p, now);
      SettledTwice(r, p, now, later);
      assert KeyFor(t, rest.Keys) == key;
      assert Walk(runs, all, now).0 == before + [t];
      assert (before + [t])[..|before|] == before;
    }
  }

  /** The adopted runs claim their publications when they are walked themselves. */
  lemma {:induction false} AdoptedWalk(ps: seq<Published>, rest: map<Id, Published>, now: int, later: int)
    requires UniquePublications(ps)
    requires forall p <- ps :: p.manifest.id in rest ==> rest[p.manifest.id] == p
    ensures Walk(Unclaimed(ps, rest, now), rest, later) == (Unclaimed(ps, rest, now), rest - IdsOf(ps))
    decreases |ps|
  {
    hide Walk, Owns;
    if ps == [] {
      WalkNone(rest, later);
      assert rest - IdsOf(ps) == rest;
    } else {
      var init, p := ps[..|ps|-1], ps[|ps|-1];
      var id := p.manifest.id;
      assert ps == init + [p];
      AdoptedWalk(init, rest, now, later);
      assert IdsOf(ps) == IdsOf(init) + {id};
      forall q | q in init ensures q.manifest.id != id {
        var i :| 0 <= i < |init| && init[i] == q;
        assert ps[i] == q;
      }
      assert rest - IdsOf(ps) == (rest - IdsOf(init)) - {id};
      var before := Unclaimed(init, rest, now);
      if id in rest {
        WalkNext(before, Adopted(p, now), rest, later);
        AdoptedOwns(p, now);
        assert Unclaimed(ps, rest, now) == before + [Adopted(p, now)];
      } else {
        assert Unclaimed(ps, rest, now) == before + [] == before;
        assert rest - IdsOf(ps) == rest - IdsOf(init);
      }
    }
  }

  lemma {:induction false} NoneUnclaimed(ps: seq<Published>, now: int)
    ensures Unclaimed(ps, map[], now) == []
    decreases |ps|
  {
    if ps != [] { NoneUnclaimed(ps[..|ps|-1], now); }
  }

  /** Repeating the recovery with the same publications changes nothing, at any later time and whatever
      manifest IDs the runs carry. */
  lemma RecoverTwice(runs: seq<Run>, ps: seq<Published>, now: int, later: int)
    requires UniquePublications(ps)
    ensures Recovered(Recovered(runs, ps, now), ps, later) == Recovered(runs, ps, now)
  {
    hide Index, Walk, Unclaimed;
    KeysAreManifests(ps);
    IndexIds(ps);
    var all := Index(ps);
    var kept, rest := Walk(runs, all, now).0, Walk(runs, all, now).1;
    WalkSettles(runs, all, now);
    forall p | p in ps && p.manifest.id in rest ensures rest[p.manifest.id] == p {
      IndexIs(ps, p.manifest.id);
      FindUnique(ps, p);
    }
    WalkTwice(runs, all, now, later);
    WalkConcat(kept, Unclaimed(ps, rest, now), all, later);
    AdoptedWalk(ps, rest, now, later);
    assert rest - IdsOf(ps) == map[];
    NoneUnclaimed(ps, later);
    assert kept + Unclaimed(ps, rest, now) + [] == kept + Unclaimed(ps, rest, now);
  }

  /** But not always one owner: a run that names another run's publication takes it, and the run it belongs
      to keeps it as well. */
  lemma ForeignManifestOwnsTwice(p: Published, a: Run, b: Run, now: int)
    requires a.id != b.id == p.manifest.id && a.manifestId == Some(p.manifest.id) && Owns(b, p)
    ensures var out := Recovered([a, b], [p], now); |out| == 2 && Owns(out[0], p) && Owns(out[1], p)
  {
    var all := map[p.manifest.id := p];
    assert [p][..0] == [] && Index([p]) == all && Unclaimed([p], map[], now) == Unclaimed([], map[], now) + [];
    assert [a, b][..1] == [a] && [a][..0] == [];
    assert all - {p.manifest.id} == map[];
    assert Walk([], all, now) == ([], all) && KeyFor(a, all.Keys) == Some(p.manifest.id);
    assert [] + [Settled(a, Some(p), now)] == [Settled(a, Some(p), now)];
    assert [Settled(a, Some(p), now)] + [Settled(b, None, now)] == [Settled(a, Some(p), now), Settled(b, None, now)];
    assert Walk([a], Index([p]), now) == ([Settled(a, Some(p), now)], map[]);
    assert Walk([a, b], Index([p]), now) == ([Settled(a, Some(p), now), Settled(b, None, now)], map[]);
  }

  function IdsOf(ps: seq<Published>): set<Id> { set p | p in ps :: p.manifest.id }

  /** What is left for run `j` to claim: it depends on run IDs, manifest IDs and published IDs alone. */
  function LeftFor(runs: seq<Run>, ps: seq<Published>, j: nat): set<Id>
    requires j <= |runs|
  {
    LeftBy(runs[..j], IdsOf(ps))
  }

  /** Run `j` finds nothing left to claim, but already owns `p`. */
  predicate KeepsTaken(runs: seq<Run>, ps: seq<Published>, j: nat, p: Published)
    requires j < |runs|
  {
    KeyFor(runs[j], LeftFor(runs, ps, j)).None? && Owns(runs[j], p)
  }

  lemma {:induction false} WalkLeaves(runs: seq<Run>, all: map<Id, Published>, now: int)
    ensures Walk(runs, all, now).1.Keys == LeftBy(runs, all.Keys)
    decreases |runs|
  {
    if runs != [] { WalkLeaves(runs[..|runs|-1], all, now); }
  }

  lemma {:induction false} IndexIds(ps: seq<Published>)
    ensures Index(ps).Keys == IdsOf(ps)
    decreases |ps|
  {
    if ps != [] {
      IndexIds(ps[..|ps|-1]);
      assert ps == ps[..|ps|-1] + [ps[|ps|-1]];
      assert IdsOf(ps) == IdsOf(ps[..|ps|-1]) + {ps[|ps|-1].manifest.id};
    }
  }

  lemma LeftIs(runs: seq<Run>, ps: seq<Published>, now: int, j: nat)
    requires j <= |runs|
    ensures Walk(runs[..j], Index(ps), now).1.Keys == LeftFor(runs, ps, j)
  {
    IndexIds(ps);
    WalkLeaves(runs[..j], Index(ps), now);
  }

  lemma {:induction false} WalkAt(runs: seq<Run>, all: map<Id, Published>, now: int, j: nat)
    requires j < |runs|
    ensures var rest := Walk(runs[..j], all, now).1;
      var key := KeyFor(runs[j], rest.Keys);
      && |Walk(runs, all, now).0| == |runs|
      && Walk(runs, all, now).0[j] == Settled(runs[j], if key.Some? then Some(rest[key.value]) else None, now)
      && Walk(runs, all, now).1.Keys <= rest.Keys - if key.Some? then {key.value} else {}
    decreases |runs|
  {
    var init := runs[..|runs|-1];
    WalkSize(init, all, now);
    if j < |runs| - 1 {
      WalkAt(init, all, now, j);
      assert init[..j] == runs[..j];
    }
  }

  lemma {:induction false} WalkSize(runs: seq<Run>, all: map<Id, Published>, now: int)
    ensures |Walk(runs, all, now).0| == |runs|
    decreases |runs|
  {
    if runs != [] { WalkSize(runs[..|runs|-1], all, now); }
  }

  /** Run `j` ends up owning `p` if it claims it, or if it owned it before and finds nothing to claim. */
  lemma OwnerAfterWalk(runs: seq<Run>, ps: seq<Published>, now: int, j: nat, p: Published)
    requires UniquePublications(ps) && p in ps && j < |runs|
    ensures |Walk(runs, Index(ps), now).0| == |runs|
    ensures Owns(Walk(runs, Index(ps), now).0[j], p) <==>
      KeyFor(runs[j], LeftFor(runs, ps, j)) == Some(p.manifest.id) || KeepsTaken(runs, ps, j, p)
  {
    hide Index;
    WalkAt(runs, Index(ps), now, j);
    LeftIs(runs, ps, now, j);
    KeysAreManifests(ps);
    WalkSettles(runs[..j], Index(ps), now);
    IndexIs(ps, p.manifest.id);
    FindUnique(ps, p);
  }

  lemma ClaimedOnce(runs: seq<Run>, ps: seq<Published>, now: int, i: nat, j: nat, id: Id)
    requires i < j < |runs| && KeyFor(runs[i], LeftFor(runs, ps, i)) == Some(id)
    ensures KeyFor(runs[j], LeftFor(runs, ps, j)) != Some(id) && id !in Walk(runs, Index(ps), now).1
  {
    hide Index;
    LeftIs(runs, ps, now, i);
    LeftIs(runs, ps, now, j);
    WalkAt(runs[..j], Index(ps), now, i);
    assert runs[..j][..i] == runs[..i];
    WalkAt(runs, Index(ps), now, i);
  }

  /** What the list holds for run `j` afterwards: the publication it claims, in every field; without one, the
      interruption of a run that was still running; and any other run as it was. */
  lemma RunBecomes(runs: seq<Run>, ps: seq<Published>, now: int, j: nat)
    requires UniquePublications(ps) && j < |runs|
    ensures var out, key := Recovered(runs, ps, now), KeyFor(runs[j], LeftFor(runs, ps, j));
      && |out| >= |runs| && out[j].id == runs[j].id && out[j].rest == runs[j].rest
      && (key.None? && runs[j].status == Running ==>
            out[j] == runs[j].(status := Interrupted, error := Some(INTERRUPTED), updatedAt := now))
      && (key.None? && runs[j].status != Running ==> out[j] == runs[j])
      && (forall p <- ps :: key == Some(p.manifest.id) ==>
            && out[j].status == Succeeded && out[j].manifestId == Some(p.manifest.id) && out[j].error == None
            && out[j].bundle == Some(p.bundle) && out[j].items == |p.manifest.items| && out[j].idem == Some(p.idem)
            && out[j].updatedAt == if runs[j].(updatedAt := out[j].updatedAt) == out[j] then runs[j].updatedAt else now)
  {
    hide Index, Walk;
    WalkAt(runs, Index(ps), now, j);
    LeftIs(runs, ps, now, j);
    KeysAreManifests(ps);
    WalkSettles(runs[..j], Index(ps), now);
    forall p | p in ps ensures p.manifest.id in Index(ps) && Index(ps)[p.manifest.id] == p {
      IndexIs(ps, p.manifest.id);
      FindUnique(ps, p);
    }
  }

  /** A run that was still running and of which nothing was published is interrupted, and says so. */
  lemma UnpublishedIsInterrupted(runs: seq<Run>, ps: seq<Published>, now: int, j: nat)
    requires UniquePublications(ps) && j < |runs| && runs[j].status == Running
    requires forall p <- ps :: p.manifest.id != runs[j].id && runs[j].manifestId != Some(p.manifest.id)
    ensures var out := Recovered(runs, ps, now);
      j < |out| && out[j] == runs[j].(status := Interrupted, error := Some(INTERRUPTED), updatedAt := now)
  {
    RunBecomes(runs, ps, now, j);
    LeftShrinks(runs[..j], IdsOf(ps));
  }

  lemma {:induction false} LeftShrinks(runs: seq<Run>, published: set<Id>)
    ensures LeftBy(runs, published) <= published
    decreases |runs|
  {
    if runs != [] { LeftShrinks(runs[..|runs|-1], published); }
  }

  predicate OneOwner(out: seq<Run>, p: Published) {
    (exists i :: 0 <= i < |out| && Owns(out[i], p)) &&
    forall i, j :: 0 <= i < j < |out| ==> !(Owns(out[i], p) && Owns(out[j], p))
  }

  lemma {:induction false} SomeoneClaimed(runs: seq<Run>, ps: seq<Published>, now: int, id: Id) returns (i: nat)
    requires id in Index(ps) && id !in Walk(runs, Index(ps), now).1
    ensures i < |runs| && KeyFor(runs[i], LeftFor(runs, ps, i)) == Some(id)
    decreases |runs|
  {
    hide Index;
    var n := |runs| - 1;
    var init := runs[..n];
    if id in Walk(init, Index(ps), now).1 {
      LeftIs(runs, ps, now, n);
      i := n;
    } else {
      i := SomeoneClaimed(init, ps, now, id);
      assert init[..i] == runs[..i];
    }
  }

  lemma {:induction false} NotAdopted(ps: seq<Published>, rest: map<Id, Published>, now: int, p: Published)
    requires p.manifest.id !in rest || forall i :: 0 <= i < |ps| ==> ps[i].manifest.id != p.manifest.id
    ensures forall r <- Unclaimed(ps, rest, now) :: !Owns(r, p)
    decreases |ps|
  {
    if ps != [] { NotAdopted(ps[..|ps|-1], rest, now, p); }
  }

  lemma {:induction false} AdoptedOnce(ps: seq<Published>, rest: map<Id, Published>, now: int, p: Published)
    requires UniquePublications(ps) && p in ps && p.manifest.id in rest
    ensures OneOwner(Unclaimed(ps, rest, now), p)
    decreases |ps|
  {
    hide Owns;
    var init, last := ps[..|ps|-1], ps[|ps|-1];
    assert ps == init + [last];
    var before, out := Unclaimed(init, rest, now), Unclaimed(ps, rest, now);
    if p == last {
      NotAdopted(init, rest, now, p);
      AdoptedOwns(p, now);
      assert out[|before|] == Adopted(p, now);
    } else {
      AdoptedOnce(init, rest, now, p);
      AdoptedOwns(last, now);
      OwnsOne(Adopted(last, now), last, p);
      var i :| 0 <= i < |before| && Owns(before[i], p);
      assert out[i] == before[i];
    }
  }

  lemma AdoptedOwns(p: Published, now: int)
    ensures Owns(Adopted(p, now), p)
  {
  }

  lemma OwnsOne(r: Run, p: Published, q: Published)
    requires Owns(r, p) && p.manifest.id != q.manifest.id
    ensures !Owns(r, q)
  {
  }

  /** A run that found its publication taken owns it next to the run that took it. */
  lemma TakenTwice(runs: seq<Run>, ps: seq<Published>, now: int, j: nat, p: Published) returns (i: nat)
    requires UniquePublications(ps) && p in ps && j < |runs| && KeepsTaken(runs, ps, j, p)
    ensures i < j && |Walk(runs, Index(ps), now).0| == |runs|
    ensures Owns(Walk(runs, Index(ps), now).0[i], p) && Owns(Walk(runs, Index(ps), now).0[j], p)
  {
    hide Index;
    IndexIs(ps, p.manifest.id);
    FindUnique(ps, p);
    LeftIs(runs, ps, now, j);
    i := SomeoneClaimed(runs[..j], ps, now, p.manifest.id);
    assert runs[..j][..i] == runs[..i];
    OwnerAfterWalk(runs, ps, now, i, p);
    OwnerAfterWalk(runs, ps, now, j, p);
  }

  /** A publication ends up with exactly one owner if and only if no run that already owns it finds it taken
      by a run before it. */
  lemma OneOwnerIffNoneTaken(runs: seq<Run>, ps: seq<Published>, now: int, p: Published)
    requires UniquePublications(ps) && p in ps
    ensures OneOwner(Recovered(runs, ps, now), p) <==>
      forall j :: 0 <= j < |runs| ==> !KeepsTaken(runs, ps, j, p)
  {
    hide Index, Owns, KeyFor, LeftFor, Walk, KeepsTaken;
    var kept, out := Walk(runs, Index(ps), now).0, Recovered(runs, ps, now);
    WalkSize(runs, Index(ps), now);
    if j :| 0 <= j < |runs| && KeepsTaken(runs, ps, j, p) {
      var i := TakenTwice(runs, ps, now, j, p);
      assert out[i] == kept[i] && out[j] == kept[j];
    } else {
      OneOwnerOtherwise(runs, ps, now, p);
    }
  }

  lemma OneOwnerOtherwise(runs: seq<Run>, ps: seq<Published>, now: int, p: Published)
    requires UniquePublications(ps) && p in ps
    requires forall j :: 0 <= j < |runs| ==> !KeepsTaken(runs, ps, j, p)
    ensures OneOwner(Recovered(runs, ps, now), p)
  {
    hide Index, Owns, KeyFor, LeftFor, Walk, KeepsTaken;
    var id, rest := p.manifest.id, Walk(runs, Index(ps), now).1;
    var kept, added, out := Walk(runs, Index(ps), now).0, Unclaimed(ps, rest, now), Recovered(runs, ps, now);
    WalkSize(runs, Index(ps), now);
    forall j | 0 <= j < |runs|
      ensures Owns(kept[j], p) <==> KeyFor(runs[j], LeftFor(runs, ps, j)) == Some(id)
    {
      OwnerAfterWalk(runs, ps, now, j, p);
    }
    forall i, j | 0 <= i < j < |runs| ensures !(Owns(kept[i], p) && Owns(kept[j], p)) {
      if Owns(kept[i], p) { ClaimedOnce(runs, ps, now, i, j, id); }
    }
    assert out == kept + added;
    if id in rest {
      AdoptedOnce(ps, rest, now, p);
      forall j | 0 <= j < |runs| ensures !Owns(kept[j], p) {
        if Owns(kept[j], p) { ClaimedIsGone(runs, ps, now, j, id); }
      }
      var k :| 0 <= k < |added| && Owns(added[k], p);
      assert out[|kept| + k] == added[k];
    } else {
      NotAdopted(ps, rest, now, p);
      IndexIs(ps, id);
      FindUnique(ps, p);
      var i := SomeoneClaimed(runs, ps, now, id);
      assert out[i] == kept[i];
    }
  }

  lemma ClaimedIsGone(runs: seq<Run>, ps: seq<Published>, now: int, j: nat, id: Id)
    requires j < |runs| && KeyFor(runs[j], LeftFor(runs, ps, j)) == Some(id)
    ensures id !in Walk(runs, Index(ps), now).1
  {
    hide Index;
    LeftIs(runs, ps, now, j);
    WalkAt(runs, Index(ps), now, j);
  }

  class State {
    var runs: seq<Run>
    var manifests: map<Id, Manifest>

    constructor (runs: seq<Run>)
      ensures this.runs == runs
    {
      this.runs, manifests := runs, map[];
    }

    /** Walks the runs, claiming publications as it goes, then records the unclaimed ones. */
    method RecoverRuns(ps: seq<Published>, now: int)
      requires UniquePublications(ps)
      modifies this
      ensures runs == Recovered(old(runs), ps, now)
      ensures UniqueRuns(old(runs)) && OwnManifests(old(runs)) ==> runs == Reconciled(old(runs), ps, now)
      ensures manifests == ManifestsAfter(old(manifests), ps)
    {
      var published: map<Id, Published> := map[];
      for i := 0 to |ps|
        invariant runs == old(runs)
        invariant published == Index(ps[..i]) && manifests == ManifestsAfter(old(manifests), ps[..i])
      {
        assert ps[..i+1][..i] == ps[..i];
        published := published[ps[i].manifest.id := ps[i]];
        manifests := manifests[ps[i].manifest.id := ps[i].manifest];
      }
      assert ps[..|ps|] == ps;
      if UniqueRuns(runs) && OwnManifests(runs) { RecoveredIsReconciled(runs, ps, now); }
      KeysAreManifests(ps);
      published := ClaimPublications(published, now);
      AdoptRest(ps, published, now);
    }

    method ClaimPublications(all: map<Id, Published>, now: int) returns (published: map<Id, Published>)
      requires forall id <- all :: all[id].manifest.id == id
      modifies this`runs
      ensures (runs, published) == Walk(old(runs), all, now)
    {
      hide Owns;
      published := all;
      assert old(runs)[..0] == [];
      var i := 0;
      while i < |runs|
        invariant 0 <= i <= |runs| == |old(runs)|
        invariant (runs[..i], published) == Walk(old(runs)[..i], all, now)
        invariant forall id <- published :: published[id].manifest.id == id
        invariant forall j :: i <= j < |runs| ==> runs[j] == old(runs)[j]
      {
        var r := runs[i];
        ghost var done := runs[..i];
        assert old(runs)[..i+1][..i] == old(runs)[..i] && old(runs)[..i+1][i] == r;
        var key := if r.id !in published && r.manifestId.Some? then r.manifestId.value else r.id;
        if key in published {
          var p := published[key];
          published := published - {p.manifest.id};
          if !Owns(r, p) {
            runs := runs[i := Run(r.id, Succeeded, Some(p.manifest.id), Some(p.bundle), |p.manifest.items|,
                                  Some(p.idem), None, now, r.rest)];
          }
        } else if r.status == Running {
          runs := runs[i := r.(status := Interrupted, error := Some(INTERRUPTED), updatedAt := now)];
        }
        assert runs[..i] == done;
        assert runs[..i+1] == runs[..i] + [runs[i]];
        i := i + 1;
      }
      assert old(runs)[..|old(runs)|] == old(runs) && runs[..|runs|] == runs;
    }

    method AdoptRest(ps: seq<Published>, published: map<Id, Published>, now: int)
      modifies this`runs
      ensures runs == old(runs) + Unclaimed(ps, published, now)
    {
      for i := 0 to |ps|
        invariant runs == old(runs) + Unclaimed(ps[..i], published, now)
      {
        assert ps[..i+1][..i] == ps[..i] && ps[..i+1][i] == ps[i];
        if ps[i].manifest.id in published { runs := runs + [Adopted(ps[i], now)]; }
      }
      assert ps[..|ps|] == ps;
    }
  }

  lemma {:induction false} KeysAreManifests(ps: seq<Published>)
    ensures forall id <- Index(ps) :: Index(ps)[id].manifest.id == id
    decreases |ps|
  {
    if ps != [] { KeysAreManifests(ps[..|ps|-1]); }
  }
}
