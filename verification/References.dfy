/** Who still uses what a plan removes. */
module References {
  import opened Manifest
  import opened Cluster

  datatype Plan = Plan(storage: Identity, revision: int, digest: string,
                       resources: seq<Identity>, worlds: seq<Identity>, seeds: seq<Identity>,
                       secrets: seq<Identity>, retainedSecrets: seq<Identity>)

  datatype Row = Row(ns: string, release: string, seedClaim: string)

  /** The panel's own state at one moment: inventory, deletion receipts and integration Secrets. */
  datatype State = State(servers: map<string, Row>, receipts: map<string, Plan>, integrationSecrets: set<string>)

  function DeploymentName(release: string): string { release + "-rsdragonwilds" }

  predicate SamePlace(a: Identity, b: Identity) { a.ns == b.ns && a.name == b.name }

  predicate RowUses(row: Row, ref: Identity) {
    row.ns == ref.ns && (DeploymentName(row.release) == ref.name || (row.seedClaim != "" && row.seedClaim == ref.name))
  }

  /** Another server's receipt or inventory entry holds this storage. */
  predicate Protected(state: State, deleting: string, ref: Identity) {
    || (exists id :: id in state.receipts && id != deleting &&
          exists r :: r in state.receipts[id].worlds + state.receipts[id].seeds && SamePlace(r, ref))
    || (exists id :: id in state.servers && id != deleting && RowUses(state.servers[id], ref))
  }

  function AllRefs(p: Plan): seq<Identity> { p.resources + p.secrets + p.seeds + p.worlds }

  predicate Uses(w: Workload, ref: Identity) {
    || (ref.kind == Claim && ref.name in w.claims)
    || (ref.kind == Secret && ref.name in w.secrets)
    || (ref.kind == ConfigMap && ref.name in w.configs)
  }

  function Deployments(resources: seq<Identity>): set<string> {
    set r | r in resources && r.kind == Deployment :: r.uid
  }

  predicate OwnedReplicaSet(w: Workload, owned: set<string>) {
    w.replicaSet && exists o :: o in w.owners && o.deployment && o.uid in owned
  }

  /** The plan's deployments and, in listing order, the replica sets they own. */
  function OwnedUids(items: seq<Workload>, deployments: set<string>): set<string> {
    if items == [] then deployments
    else
      var before := OwnedUids(items[..|items|-1], deployments);
      var w := items[|items|-1];
      before + if OwnedReplicaSet(w, before) then {w.uid} else {}
  }

  predicate IsOwned(w: Workload, owned: set<string>) {
    w.uid in owned || exists o :: o in w.owners && o.uid in owned
  }

  /** Before the removal the plan's own workloads may run; afterwards none may remain. Nobody else may
      use anything planned. */
  predicate WorkloadsClear(items: seq<Workload>, plan: Plan, before: bool) {
    var owned := OwnedUids(items, Deployments(plan.resources));
    forall i :: 0 <= i < |items| ==>
      if IsOwned(items[i], owned) then before
      else forall ref :: ref in AllRefs(plan) ==> !Uses(items[i], ref)
  }

  predicate StorageClear(plan: Plan, state: State, deleting: string) {
    forall ref :: ref in plan.worlds + plan.seeds ==> !Protected(state, deleting, ref)
  }

  predicate IntegrationsClear(plan: Plan, state: State, panelNamespace: bool) {
    panelNamespace ==> forall ref :: ref in plan.secrets + plan.resources && ref.kind == Secret ==>
      ref.name !in state.integrationSecrets
  }

  predicate Clear(items: seq<Workload>, plan: Plan, before: bool, state: State, deleting: string,
      panelNamespace: bool)
  {
    WorkloadsClear(items, plan, before) && StorageClear(plan, state, deleting)
      && IntegrationsClear(plan, state, panelNamespace)
  }

  /** Owned are the plan's deployments and every replica set with a deployment among its owners that was owned
      before it in the list. */
  lemma {:induction false} OwnedIs(items: seq<Workload>, deployments: set<string>, uid: string)
    ensures uid in OwnedUids(items, deployments) <==>
      || uid in deployments
      || exists i, o :: 0 <= i < |items| && items[i].uid == uid && items[i].replicaSet && o in items[i].owners &&
           o.deployment && o.uid in OwnedUids(items[..i], deployments)
    decreases |items|
  {
    if items != [] {
      var n := |items| - 1;
      var init := items[..n];
      OwnedIs(init, deployments, uid);
      forall i | 0 <= i < n ensures init[i] == items[i] && init[..i] == items[..i] {}
      if i, o :|
        0 <= i < n && init[i].uid == uid && init[i].replicaSet && o in init[i].owners && o.deployment &&
        o.uid in OwnedUids(init[..i], deployments)
      {
        assert items[i].uid == uid && o in items[i].owners && o.uid in OwnedUids(items[..i], deployments);
      }
    }
  }

  /** When storage is protected: by another server's receipt for a claim of that name in that namespace, or by
      another server's release or seed of that name there. */
  lemma ProtectedIs(state: State, deleting: string, ref: Identity)
    ensures Protected(state, deleting, ref) <==>
      || (exists id, r :: id in state.receipts && id != deleting &&
            (r in state.receipts[id].worlds || r in state.receipts[id].seeds) && r.ns == ref.ns && r.name == ref.name)
      || (exists id :: id in state.servers && id != deleting && state.servers[id].ns == ref.ns &&
            (|| state.servers[id].release + "-rsdragonwilds" == ref.name
             || (state.servers[id].seedClaim == ref.name && ref.name != "")))
  {
    if id, r :|
      id in state.receipts && id != deleting &&
      (r in state.receipts[id].worlds || r in state.receipts[id].seeds) && r.ns == ref.ns && r.name == ref.name
    {
      assert r in state.receipts[id].worlds + state.receipts[id].seeds && SamePlace(r, ref);
    }
  }

  /** When a listing is clear of other users: no foreign workload names a planned claim, Secret or ConfigMap,
      and the plan's own workloads are listed only beforehand. */
  lemma WorkloadsClearIs(items: seq<Workload>, plan: Plan, before: bool)
    ensures var owned := OwnedUids(items, Deployments(plan.resources));
      WorkloadsClear(items, plan, before) <==>
        forall i :: 0 <= i < |items| ==>
          var w := items[i];
          if w.uid in owned || exists o :: o in w.owners && o.uid in owned then before
          else forall ref :: ref in plan.resources || ref in plan.secrets || ref in plan.seeds || ref in plan.worlds ==>
            && (ref.kind == Claim ==> ref.name !in w.claims) && (ref.kind == Secret ==> ref.name !in w.secrets)
            && (ref.kind == ConfigMap ==> ref.name !in w.configs)
  {
    assert forall ref ::
      ref in AllRefs(plan) <==> ref in plan.resources || ref in plan.secrets || ref in plan.seeds || ref in plan.worlds;
  }

  method Owned(items: seq<Workload>, resources: seq<Identity>) returns (owned: set<string>)
    ensures owned == OwnedUids(items, Deployments(resources))
  {
    owned := {};
    for n := 0 to |resources|
      invariant owned == Deployments(resources[..n])
    {
      assert resources[..n+1] == resources[..n] + [resources[n]];
      if resources[n].kind == Deployment { owned := owned + {resources[n].uid}; }
    }
    assert resources[..|resources|] == resources;
    for n := 0 to |items|
      invariant owned == OwnedUids(items[..n], Deployments(resources))
    {
      assert items[..n+1][..n] == items[..n];
      if OwnedReplicaSet(items[n], owned) { owned := owned + {items[n].uid}; }
    }
    assert items[..|items|] == items;
  }

  method CheckWorkloads(items: seq<Workload>, plan: Plan, before: bool) returns (ok: bool)
    ensures ok <==> WorkloadsClear(items, plan, before)
  {
    var owned := Owned(items, plan.resources);
    for n := 0 to |items|
      invariant forall i :: 0 <= i < n ==>
        if IsOwned(items[i], owned) then before
        else forall ref :: ref in AllRefs(plan) ==> !Uses(items[i], ref)
    {
      if IsOwned(items[n], owned) {
        if !before { return false; }
      } else if exists ref :: ref in AllRefs(plan) && Uses(items[n], ref) {
        return false;
      }
    }
    return true;
  }

  method CheckReferences(cluster: Cluster, plan: Plan, before: bool, state: State, deleting: string,
                         panelNamespace: bool) returns (ok: bool)
    modifies cluster
    ensures old(cluster.trace) <= cluster.trace && Quiet(cluster.trace, |old(cluster.trace)|)
    ensures cluster.trace == old(cluster.trace) ==> !ok
    ensures cluster.failed == (old(cluster.failed) || cluster.trace == old(cluster.trace))
    ensures cluster.trace != old(cluster.trace) ==>
      |cluster.trace| == |old(cluster.trace)| + 1 && LastListing(cluster.trace).Listed?
    ensures cluster.trace != old(cluster.trace) ==>
      (ok <==> Clear(LastListing(cluster.trace).workloads, plan, before, state, deleting, panelNamespace))
  {
    var listed, items := cluster.List();
    if !listed { return false; }
    ok := CheckWorkloads(items, plan, before);
    if !ok { return; }
    if exists ref :: ref in plan.worlds + plan.seeds && Protected(state, deleting, ref) { return false; }
    if panelNamespace && exists ref ::
      ref in plan.secrets + plan.resources && ref.kind == Secret && ref.name in state.integrationSecrets {
      return false;
    }
  }

  function LastListing(t: seq<Step>): Step
    requires t != []
  {
    t[|t|-1]
  }

  /** Once the removal was checked clear, no listed workload but the plan's own uses a planned object, and
      the plan's deployments and their replica sets are never taken for someone else's. */
  lemma {:induction false} PlannedDeploymentsAreOwned(items: seq<Workload>, deployments: set<string>)
    ensures deployments <= OwnedUids(items, deployments)
    ensures forall i :: 0 <= i < |items| && OwnedReplicaSet(items[i], deployments) ==>
      items[i].uid in OwnedUids(items, deployments)
  {
    if items != [] {
      var init := items[..|items|-1];
      PlannedDeploymentsAreOwned(init, deployments);
      assert forall i :: 0 <= i < |init| ==> init[i] == items[i];
    }
  }
}
