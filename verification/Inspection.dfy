/** Drawing up a deletion plan: what may be recorded as this server's own, and on what evidence. */
module Inspection {
  import opened Options
  import opened Manifest
  import opened Cluster
  import opened References
  import opened Removal

  datatype Server = Server(id: string, ns: string, release: string, passwordSecret: string, token: string,
                           seedClaim: string)

  /** The kinds and names a plan for this server can hold. */
  predicate WellFormed(p: Plan, s: Server) {
    && (forall r :: r in p.resources ==> r.kind != Claim && !r.kind.OtherKind? && r.ns == s.ns)
    && (forall r :: r in p.worlds ==> r.kind == Claim && r.ns == s.ns)
    && (forall r :: r in p.seeds ==> r.kind == Claim && r.ns == s.ns && r.name == s.seedClaim)
    && (forall r :: r in p.secrets ==>
      r.kind == Secret && r.ns == s.ns && r.name in [s.release + "-api", s.passwordSecret])
    && p.worlds != []
  }

  ghost predicate SeenOwned(t: seq<Step>, from: nat, ref: Identity, release: string) {
    exists o :: Shows(t, from, ref, o) && o.uid == ref.uid && HelmOwned(o, ref.ns, release) && !o.terminating
  }

  ghost predicate SeenSeed(t: seq<Step>, from: nat, ref: Identity) {
    exists o :: Shows(t, from, ref, o) && o.uid == ref.uid && o.seedLabel == ref.name
  }

  ghost predicate SeenToken(t: seq<Step>, from: nat, ref: Identity, token: string) {
    token != "" && exists o :: Shows(t, from, ref, o) && o.uid == ref.uid && o.token == token
  }

  /** What the inspection saw for each entry it recorded. */
  ghost predicate Evidence(t: seq<Step>, from: nat, p: Plan, s: Server, mode: Mode) {
    && (forall r :: r in p.resources ==> SeenOwned(t, from, r, s.release))
    && AllKept(t, from, p.worlds)
    && (mode == PurgeWorld ==> forall r :: r in p.worlds ==> SeenOwned(t, from, r, s.release))
    && (forall r :: r in p.seeds ==> SeenSeed(t, from, r))
    && (forall r :: r in p.secrets ==> SeenToken(t, from, r, s.token))
  }

  lemma SightingsGrow(t: seq<Step>, u: seq<Step>, from: nat)
    requires t <= u
    ensures forall r, release :: SeenOwned(t, from, r, release) ==> SeenOwned(u, from, r, release)
    ensures forall r :: SeenSeed(t, from, r) ==> SeenSeed(u, from, r)
    ensures forall r, token :: SeenToken(t, from, r, token) ==> SeenToken(u, from, r, token)
  {
    hide Shows, Gone;
    RecordGrows(t, u, from);
  }

  lemma SightingsReach(t: seq<Step>, from: nat, later: nat)
    requires from <= later
    ensures forall r, release :: SeenOwned(t, later, r, release) ==> SeenOwned(t, from, r, release)
    ensures forall r :: SeenSeed(t, later, r) ==> SeenSeed(t, from, r)
    ensures forall r, token :: SeenToken(t, later, r, token) ==> SeenToken(t, from, r, token)
  {
    hide Shows, Gone;
    EarlierShowsMore(t, from, later);
  }

  lemma JustSeen(t: seq<Step>, u: seq<Step>, from: nat, ref: Identity, o: Object)
    requires from <= |t| && u == t + [Looked(KeyOf(ref), Some(o))]
    ensures Shows(u, from, ref, o)
  {
    assert u[|t|] == Looked(KeyOf(ref), Some(o));
  }

  function KeysOf(refs: seq<Identity>): seq<Key> { seq(|refs|, i requires 0 <= i < |refs| => KeyOf(refs[i])) }

  /** The release's claims, or its other resources, in manifest order. */
  function ItemKeys(items: seq<Item>, claims: bool, ns: string): seq<Key> {
    if items == [] then []
    else
      var it := items[|items|-1];
      ItemKeys(items[..|items|-1], claims, ns) +
      if (it.kind == Claim) == claims then [Key(it.kind, ns, it.name)] else []
  }

  /** The managed deployment as the release stores it. */
  predicate ManagedDeployment(items: seq<Item>, release: string, live: Object) {
    exists k :: 0 <= k < |items| && items[k].kind == Deployment && items[k].name == DeploymentName(release)
      && items[k].claims == live.claims && items[k].secrets == live.secrets
      && forall j :: 0 <= j < |items| && items[j].kind == Deployment ==> j == k
  }

  /** A resource of the release was seen absent, foreign or terminating. */
  predicate NotLive(t: seq<Step>, from: nat, it: Item, s: Server) {
    exists i ::
      from <= i < |t| && t[i].Looked? && t[i].key == Key(it.kind, s.ns, it.name) &&
      (t[i].found.None? || !HelmOwned(t[i].found.value, s.ns, s.release) || t[i].found.value.terminating)
  }

  /** Of a release with one deployment of the expected name the live one was seen to use other claims or
      Secrets; any other number or name of deployments is refused outright. */
  predicate Mismatched(t: seq<Step>, from: nat, items: seq<Item>, s: Server) {
    || (forall k :: 0 <= k < |items| ==> items[k].kind != Deployment)
    || (exists j, k :: 0 <= j < k < |items| && items[j].kind == Deployment && items[k].kind == Deployment)
    || exists k :: 0 <= k < |items| && items[k].kind == Deployment &&
                   (items[k].name != DeploymentName(s.release) || Differs(t, from, items[k], s))
  }

  predicate Differs(t: seq<Step>, from: nat, it: Item, s: Server) {
    exists i ::
      from <= i < |t| && t[i].Looked? && t[i].key == Key(it.kind, s.ns, it.name) && t[i].found.Some? &&
      (t[i].found.value.claims != it.claims || t[i].found.value.secrets != it.secrets)
  }

  lemma SightsStay(t: seq<Step>, u: seq<Step>, from: nat, later: nat, it: Item, s: Server)
    requires t <= u && from <= later
    ensures NotLive(t, later, it, s) ==> NotLive(u, from, it, s)
    ensures Differs(t, later, it, s) ==> Differs(u, from, it, s)
  {
    assert forall i :: 0 <= i < |t| ==> u[i] == t[i];
    if NotLive(t, later, it, s) {
      var i :|
        later <= i < |t| && t[i].Looked? && t[i].key == Key(it.kind, s.ns, it.name) &&
        (t[i].found.None? || !HelmOwned(t[i].found.value, s.ns, s.release) || t[i].found.value.terminating);
      assert u[i] == t[i];
    }
    if Differs(t, later, it, s) {
      var i :|
        later <= i < |t| && t[i].Looked? && t[i].key == Key(it.kind, s.ns, it.name) && t[i].found.Some? &&
        (t[i].found.value.claims != it.claims || t[i].found.value.secrets != it.secrets);
      assert u[i] == t[i];
    }
  }

  /** Every resource of the release must be live, owned by the release and not terminating; the release
      must hold one deployment, which must use the claims and Secrets its manifest names. */
  method InspectResources(cluster: Cluster, s: Server, items: seq<Item>)
    returns (ok: bool, resources: seq<Identity>, worlds: seq<Identity>, deployment: Option<Object>)
    modifies cluster
    ensures old(cluster.trace) <= cluster.trace && Quiet(cluster.trace, |old(cluster.trace)|)
    ensures ok ==> KeysOf(resources) == ItemKeys(items, false, s.ns) && KeysOf(worlds) == ItemKeys(items, true, s.ns)
    ensures ok ==> forall r :: r in resources + worlds ==> SeenOwned(cluster.trace, |old(cluster.trace)|, r, s.release)
    ensures ok ==> deployment.Some? && ManagedDeployment(items, s.release, deployment.value)
    ensures old(cluster.failed) ==> cluster.failed
    ensures !ok && !cluster.failed ==>
      || (exists it :: it in items && NotLive(cluster.trace, |old(cluster.trace)|, it, s))
      || Mismatched(cluster.trace, |old(cluster.trace)|, items, s)
  {
    hide SeenOwned, Quiet, NotLive, Differs;
    ghost var from := |cluster.trace|;
    NothingQuiet(cluster.trace);
    resources, worlds, deployment := [], [], None;
    ghost var at: nat := 0;
    for n := 0 to |items|
      invariant old(cluster.trace) <= cluster.trace && from == |old(cluster.trace)|
      invariant Quiet(cluster.trace, from)
      invariant KeysOf(resources) == ItemKeys(items[..n], false, s.ns)
        && KeysOf(worlds) == ItemKeys(items[..n], true, s.ns)
      invariant forall r :: r in resources + worlds ==> SeenOwned(cluster.trace, from, r, s.release)
      invariant deployment.None? ==> forall j :: 0 <= j < n ==> items[j].kind != Deployment
      invariant deployment.Some? ==> at < n && DeploymentAt(items, n, at, s.release, deployment.value)
      invariant old(cluster.failed) ==> cluster.failed
    {
      ghost var t := cluster.trace;
      var it := items[n];
      assert items[..n+1][..n] == items[..n];
      var live;
      ok, live := InspectOne(cluster, s, it);
      QuietGrows(t, cluster.trace, from);
      SightsStay(cluster.trace, cluster.trace, from, |t|, it, s);
      if !ok { return; }
      SightingsGrow(t, cluster.trace, from);
      SightingsReach(cluster.trace, from, |t|);
      var ref := Identity(it.kind, s.ns, it.name, live.uid);
      if it.kind == Claim { worlds := worlds + [ref]; } else { resources := resources + [ref]; }
      if it.kind == Deployment {
        if deployment.Some? || it.name != DeploymentName(s.release) { return false, resources, worlds, deployment; }
        if live.claims != it.claims || live.secrets != it.secrets {
          assert Differs(cluster.trace, from, items[n], s);
          return false, resources, worlds, deployment;
        }
        deployment, at := Some(live), n;
      }
    }
    assert items[..|items|] == items;
    return deployment.Some?, resources, worlds, deployment;
  }

  predicate DeploymentAt(items: seq<Item>, n: nat, k: nat, release: string, live: Object)
    requires k < n <= |items|
  {
    && items[k].kind == Deployment && items[k].name == DeploymentName(release)
    && items[k].claims == live.claims && items[k].secrets == live.secrets
    && forall j :: 0 <= j < n && items[j].kind == Deployment ==> j == k
  }

  lemma NothingQuiet(t: seq<Step>)
    ensures Quiet(t, |t|)
  {
  }

  lemma QuietGrows(t: seq<Step>, u: seq<Step>, from: nat)
    requires t <= u && from <= |t| && Quiet(t, from) && Quiet(u, |t|)
    ensures Quiet(u, from)
  {
    Appended(t, u, from, {});
  }

  method InspectOne(cluster: Cluster, s: Server, it: Item) returns (ok: bool, live: Object)
    modifies cluster
    ensures old(cluster.trace) <= cluster.trace && Quiet(cluster.trace, |old(cluster.trace)|)
    ensures ok ==> SeenOwned(cluster.trace, |old(cluster.trace)|, Identity(it.kind, s.ns, it.name, live.uid), s.release)
    ensures old(cluster.failed) ==> cluster.failed
    ensures !ok && !cluster.failed ==> NotLive(cluster.trace, |old(cluster.trace)|, it, s)
    ensures ok && (live.claims != it.claims || live.secrets != it.secrets) ==>
      Differs(cluster.trace, |old(cluster.trace)|, it, s)
  {
    live := *;
    var read, found := cluster.Get(Key(it.kind, s.ns, it.name));
    if read { assert cluster.trace[|old(cluster.trace)|] == Looked(Key(it.kind, s.ns, it.name), found); }
    if !read || found.None? { return false, live; }
    live := found.value;
    if !HelmOwned(live, s.ns, s.release) || live.terminating { return false, live; }
    JustSeen(old(cluster.trace), cluster.trace, |old(cluster.trace)|, Identity(it.kind, s.ns, it.name, live.uid), live);
    return true, live;
  }

  predicate Named(refs: seq<Identity>, name: string) { exists r :: r in refs && r.name == name }

  /** The seed claim was seen without the label that proves it. */
  predicate Mislabelled(t: seq<Step>, from: nat, s: Server) {
    exists i ::
      from <= i < |t| && t[i].Looked? && t[i].key == Key(Claim, s.ns, s.seedClaim) && t[i].found.Some? &&
      t[i].found.value.seedLabel != s.seedClaim
  }

  /** The seed claim was looked for, and recorded if it was there. */
  predicate SeedRecorded(t: seq<Step>, from: nat, s: Server, seeds: seq<Identity>) {
    exists i ::
      from <= i < |t| && t[i].Looked? && t[i].key == Key(Claim, s.ns, s.seedClaim) &&
      (t[i].found.Some? ==> Identity(Claim, s.ns, s.seedClaim, t[i].found.value.uid) in seeds)
  }

  /** A mounted claim from outside the release that is to be purged, or was seen absent. */
  predicate External(t: seq<Step>, from: nat, claim: string, s: Server, mode: Mode, released: seq<Identity>) {
    && !(s.seedClaim != "" && claim == s.seedClaim) && !Named(released, claim)
    && (mode == PurgeWorld || exists i :: from <= i < |t| && t[i] == Looked(Key(Claim, s.ns, claim), None))
  }

  /** An object was seen under this very UID. */
  ghost predicate Sighted(t: seq<Step>, from: nat, ref: Identity) {
    exists o :: Shows(t, from, ref, o) && o.uid == ref.uid
  }

  lemma ClaimSightsStay(t: seq<Step>, u: seq<Step>, from: nat, later: nat, s: Server)
    requires t <= u && from <= later
    ensures Mislabelled(t, later, s) ==> Mislabelled(u, from, s)
    ensures forall seeds :: SeedRecorded(t, later, s, seeds) ==> SeedRecorded(u, from, s, seeds)
    ensures forall ref :: Sighted(t, later, ref) ==> Sighted(u, from, ref)
  {
    assert forall i :: 0 <= i < |t| ==> u[i] == t[i];
    if Mislabelled(t, later, s) {
      var i :|
        later <= i < |t| && t[i].Looked? && t[i].key == Key(Claim, s.ns, s.seedClaim) && t[i].found.Some? &&
        t[i].found.value.seedLabel != s.seedClaim;
      assert u[i] == t[i];
    }
    forall seeds | SeedRecorded(t, later, s, seeds) ensures SeedRecorded(u, from, s, seeds) {
      var i :|
        later <= i < |t| && t[i].Looked? && t[i].key == Key(Claim, s.ns, s.seedClaim) &&
        (t[i].found.Some? ==> Identity(Claim, s.ns, s.seedClaim, t[i].found.value.uid) in seeds);
      assert u[i] == t[i];
    }
    forall ref | Sighted(t, later, ref) ensures Sighted(u, from, ref) {
      var o :| Shows(t, later, ref, o) && o.uid == ref.uid;
      var i :| later <= i < |t| && t[i] == Looked(KeyOf(ref), Some(o));
      assert u[i] == t[i] && Shows(u, from, ref, o);
    }
  }

  /** Every claim the deployment mounts is the temporary seed or a world; claims from outside the release
      are recorded only when they are to be kept. */
  method InspectClaims(cluster: Cluster, s: Server, mode: Mode, claims: seq<string>, released: seq<Identity>)
    returns (ok: bool, worlds: seq<Identity>, seeds: seq<Identity>)
    requires forall r :: r in released ==> r.kind == Claim && r.ns == s.ns
    modifies cluster
    ensures old(cluster.trace) <= cluster.trace && Quiet(cluster.trace, |old(cluster.trace)|)
    ensures released <= worlds && (mode == PurgeWorld ==> worlds == released)
    ensures forall r :: r in worlds ==> r.kind == Claim && r.ns == s.ns
    ensures forall r :: r in seeds ==> r.kind == Claim && r.ns == s.ns && r.name == s.seedClaim
    ensures forall r :: r in seeds ==> SeenSeed(cluster.trace, |old(cluster.trace)|, r)
    ensures ok ==> forall c :: c in claims ==> (s.seedClaim != "" && c == s.seedClaim) || Named(worlds, c)
    ensures ok && s.seedClaim != "" && s.seedClaim in claims ==>
      SeedRecorded(cluster.trace, |old(cluster.trace)|, s, seeds)
    ensures forall r :: r in worlds ==>
      r in released || (Sighted(cluster.trace, |old(cluster.trace)|, r) && r.name in claims)
    ensures old(cluster.failed) ==> cluster.failed
    ensures !ok && !cluster.failed ==>
      || Mislabelled(cluster.trace, |old(cluster.trace)|, s)
      || exists c :: c in claims && External(cluster.trace, |old(cluster.trace)|, c, s, mode, released)
  {
    hide SeenSeed, Quiet, SeedRecorded, Mislabelled, Sighted, External, Named;
    ghost var from := |cluster.trace|;
    NothingQuiet(cluster.trace);
    worlds, seeds := released, [];
    for n := 0 to |claims|
      invariant old(cluster.trace) <= cluster.trace && from == |old(cluster.trace)|
      invariant Quiet(cluster.trace, from)
      invariant released <= worlds && (mode == PurgeWorld ==> worlds == released)
      invariant forall r :: r in worlds ==> r.kind == Claim && r.ns == s.ns
      invariant forall r :: r in seeds ==> r.kind == Claim && r.ns == s.ns && r.name == s.seedClaim
      invariant forall r :: r in seeds ==> SeenSeed(cluster.trace, from, r)
      invariant forall k :: 0 <= k < n ==> (s.seedClaim != "" && claims[k] == s.seedClaim) || Named(worlds, claims[k])
      invariant s.seedClaim != "" && s.seedClaim in claims[..n] ==> SeedRecorded(cluster.trace, from, s, seeds)
      invariant forall r :: r in worlds ==> r in released || (Sighted(cluster.trace, from, r) && r.name in claims)
      invariant old(cluster.failed) ==> cluster.failed
    {
      ghost var t := cluster.trace;
      var claim := claims[n];
      if s.seedClaim != "" && claim == s.seedClaim {
        var found;
        ok, found := InspectSeed(cluster, s);
        QuietGrows(t, cluster.trace, from);
        SightingsGrow(t, cluster.trace, from);
        SightingsReach(cluster.trace, from, |t|);
        ClaimSightsStay(t, cluster.trace, from, from, s);
        ClaimSightsStay(cluster.trace, cluster.trace, from, |t|, s);
        if !ok { return; }
        MoreSeeds(cluster.trace, from, s, seeds, found);
        seeds := seeds + found;
      } else if !Named(worlds, claim) {
        if mode == PurgeWorld {
          IsExternal(cluster.trace, from, claim, s, mode, released, worlds);
          return false, worlds, seeds;
        }
        var read, found := cluster.Get(Key(Claim, s.ns, claim));
        GetIsQuiet(t, cluster.trace);
        QuietGrows(t, cluster.trace, from);
        SightingsGrow(t, cluster.trace, from);
        ClaimSightsStay(t, cluster.trace, from, from, s);
        if read { assert cluster.trace[|t|] == Looked(Key(Claim, s.ns, claim), found); }
        if !read || found.None? {
          if read { IsExternal(cluster.trace, from, claim, s, mode, released, worlds); }
          return false, worlds, seeds;
        }
        SightedNow(t, cluster.trace, from, Identity(Claim, s.ns, claim, found.value.uid), found.value);
        ghost var before := worlds;
        worlds := worlds + [Identity(Claim, s.ns, claim, found.value.uid)];
        NamedGrows(before, Identity(Claim, s.ns, claim, found.value.uid));
      }
    }
    return true, worlds, seeds;
  }

  lemma IsExternal(t: seq<Step>, from: nat, claim: string, s: Server, mode: Mode, released: seq<Identity>,
                   worlds: seq<Identity>)
    requires released <= worlds && !Named(worlds, claim) && !(s.seedClaim != "" && claim == s.seedClaim)
    requires mode == PurgeWorld ||
             (from < |t| && t[|t|-1] == Looked(Key(Claim, s.ns, claim), None))
    ensures External(t, from, claim, s, mode, released)
  {
    if Named(released, claim) { NamedLater(released, worlds, claim); }
  }

  lemma NamedLater(released: seq<Identity>, worlds: seq<Identity>, claim: string)
    requires released <= worlds && Named(released, claim)
    ensures Named(worlds, claim)
  {
    var r :| r in released && r.name == claim;
    assert r in worlds;
  }

  lemma MoreSeeds(t: seq<Step>, from: nat, s: Server, seeds: seq<Identity>, found: seq<Identity>)
    requires SeedRecorded(t, from, s, found)
    ensures SeedRecorded(t, from, s, seeds + found)
  {
    var i :|
      from <= i < |t| && t[i].Looked? && t[i].key == Key(Claim, s.ns, s.seedClaim) &&
      (t[i].found.Some? ==> Identity(Claim, s.ns, s.seedClaim, t[i].found.value.uid) in found);
  }

  lemma SightedNow(t: seq<Step>, u: seq<Step>, from: nat, ref: Identity, o: Object)
    requires from <= |t| && u == t + [Looked(KeyOf(ref), Some(o))] && o.uid == ref.uid
    ensures Sighted(u, from, ref)
  {
    JustSeen(t, u, from, ref, o);
  }

  lemma NamedGrows(refs: seq<Identity>, ref: Identity)
    ensures Named(refs + [ref], ref.name)
    ensures forall name :: Named(refs, name) ==> Named(refs + [ref], name)
  {
    assert ref in refs + [ref];
    assert forall r :: r in refs ==> r in refs + [ref];
  }

  lemma GetIsQuiet(t: seq<Step>, u: seq<Step>)
    requires u == t || (|u| == |t| + 1 && t <= u && u[|t|].Looked?)
    ensures Quiet(u, |t|)
  {
  }

  /** A seed claim that is gone is no error; one that is not labelled as this seed is. */
  method InspectSeed(cluster: Cluster, s: Server) returns (ok: bool, seeds: seq<Identity>)
    modifies cluster
    ensures old(cluster.trace) <= cluster.trace && Quiet(cluster.trace, |old(cluster.trace)|)
    ensures forall r :: r in seeds ==> r.kind == Claim && r.ns == s.ns && r.name == s.seedClaim
    ensures forall r :: r in seeds ==> SeenSeed(cluster.trace, |old(cluster.trace)|, r)
    ensures old(cluster.failed) ==> cluster.failed
    ensures ok ==> SeedRecorded(cluster.trace, |old(cluster.trace)|, s, seeds)
    ensures !ok && !cluster.failed ==> Mislabelled(cluster.trace, |old(cluster.trace)|, s)
  {
    var read, found := cluster.Get(Key(Claim, s.ns, s.seedClaim));
    if read { assert cluster.trace[|old(cluster.trace)|] == Looked(Key(Claim, s.ns, s.seedClaim), found); }
    if !read { return false, []; }
    if found.None? { return true, []; }
    if found.value.seedLabel != s.seedClaim { return false, []; }
    var ref := Identity(Claim, s.ns, s.seedClaim, found.value.uid);
    JustSeen(old(cluster.trace), cluster.trace, |old(cluster.trace)|, ref, found.value);
    return true, [ref];
  }

  /** Each recorded world is mounted, unprotected, and seen retained under the recorded UID. */
  method InspectWorlds(cluster: Cluster, worlds: seq<Identity>, claims: seq<string>, state: State, id: string)
    returns (ok: bool)
    modifies cluster
    ensures old(cluster.trace) <= cluster.trace && Quiet(cluster.trace, |old(cluster.trace)|)
    ensures ok ==> worlds != [] && AllKept(cluster.trace, |old(cluster.trace)|, worlds)
    ensures ok ==> forall r :: r in worlds ==> r.name in claims && !Protected(state, id, r)
    ensures old(cluster.failed) ==> cluster.failed
    ensures !ok && !cluster.failed ==>
      || worlds == []
      || exists r ::
        r in worlds && (r.name !in claims || Protected(state, id, r) || Unkept(cluster.trace, |old(cluster.trace)|, r))
  {
    hide Protected, Retained, Quiet, Kept;
    if worlds == [] { NothingQuiet(cluster.trace); return false; }
    ghost var from := |cluster.trace|;
    NothingQuiet(cluster.trace);
    for n := 0 to |worlds|
      invariant old(cluster.trace) <= cluster.trace && from == |old(cluster.trace)|
      invariant Quiet(cluster.trace, from)
      invariant forall k :: 0 <= k < n ==> Kept(cluster.trace, from, worlds[k])
      invariant forall k :: 0 <= k < n ==> worlds[k].name in claims && !Protected(state, id, worlds[k])
      invariant old(cluster.failed) ==> cluster.failed
    {
      var ref := worlds[n];
      if ref.name !in claims || Protected(state, id, ref) { return false; }
      ghost var t := cluster.trace;
      var read, found := cluster.Get(KeyOf(ref));
      GetIsQuiet(t, cluster.trace);
      QuietGrows(t, cluster.trace, from);
      RecordGrows(t, cluster.trace, from);
      if read { assert cluster.trace[|t|] == Looked(KeyOf(ref), found); }
      if !read || found.None? || !Retained(found.value, ref) {
        assert read ==> Unkept(cluster.trace, from, ref);
        return false;
      }
      JustKept(t, cluster.trace, from, ref, found.value);
    }
    return true;
  }

  lemma JustKept(t: seq<Step>, u: seq<Step>, from: nat, ref: Identity, o: Object)
    requires from <= |t| && u == t + [Looked(KeyOf(ref), Some(o))] && Retained(o, ref)
    ensures Kept(u, from, ref)
  {
    JustSeen(t, u, from, ref, o);
  }

  /** Whether a Secret of this name is already a resource of the release. */
  predicate ListedSecret(resources: seq<Identity>, name: string) {
    exists q :: q in resources && q.kind == Secret && q.name == name
  }

  /** Every Secret seen from `from` on that is not a resource of the release is planned if the deployment uses
      it and it carries the token, and retained if not. */
  ghost predicate SecretsSorted(t: seq<Step>, from: nat, s: Server, resources: seq<Identity>, used: seq<string>,
                                secrets: seq<Identity>, retained: seq<Identity>)
  {
    forall i, key, o :: from <= i < |t| && t[i] == Looked(key, Some(o)) && !ListedSecret(resources, key.name) ==>
      var ref := Identity(Secret, s.ns, key.name, o.uid);
      if key.name in used && s.token != "" && o.token == s.token then ref in secrets else ref in retained
  }

  lemma NoneSortedYet(t: seq<Step>, s: Server, resources: seq<Identity>, used: seq<string>)
    ensures SecretsSorted(t, |t|, s, resources, used, [], [])
  {
  }

  lemma SortedGrows(t: seq<Step>, u: seq<Step>, from: nat, s: Server, resources: seq<Identity>, used: seq<string>,
                    secrets: seq<Identity>, retained: seq<Identity>, more: seq<Identity>, others: seq<Identity>)
    requires SecretsSorted(t, from, s, resources, used, secrets, retained) && from <= |t| && t <= u && |u| == |t| + 1
    requires SecretsSorted(u, |t|, s, resources, used, secrets + more, retained + others)
    ensures SecretsSorted(u, from, s, resources, used, secrets + more, retained + others)
  {
    forall i, key, o | from <= i < |u| && u[i] == Looked(key, Some(o)) && !ListedSecret(resources, key.name)
      ensures var ref := Identity(Secret, s.ns, key.name, o.uid);
        if key.name in used && s.token != "" && o.token == s.token then ref in secrets + more
        else ref in retained + others
    {
      if i < |t| { assert t[i] == Looked(key, Some(o)); }
    }
  }

  /** The server's own Secrets: those the deployment uses and the ownership token proves are planned, the
      rest are recorded as retained. */
  method InspectSecrets(cluster: Cluster, s: Server, resources: seq<Identity>, used: seq<string>)
    returns (ok: bool, secrets: seq<Identity>, retained: seq<Identity>)
    modifies cluster
    ensures old(cluster.trace) <= cluster.trace && Quiet(cluster.trace, |old(cluster.trace)|)
    ensures forall r :: r in secrets + retained ==>
      r.kind == Secret && r.ns == s.ns && r.name in [s.release + "-api", s.passwordSecret]
    ensures forall r :: r in secrets + retained ==>
      r.name != "" && forall q :: q in resources && q.kind == Secret ==> q.name != r.name
    ensures forall r :: r in secrets ==> r.name in used && SeenToken(cluster.trace, |old(cluster.trace)|, r, s.token)
    ensures cluster.failed == (old(cluster.failed) || !ok)
    ensures ok ==> SecretsSorted(cluster.trace, |old(cluster.trace)|, s, resources, used, secrets, retained)
    ensures ok ==> forall name :: name in [s.release + "-api", s.passwordSecret] && name != "" ==>
      LookedFor(cluster.trace, |old(cluster.trace)|, Key(Secret, s.ns, name))
  {
    hide SeenToken, Quiet, SecretsSorted, LookedFor;
    ghost var from := |cluster.trace|;
    NothingQuiet(cluster.trace);
    secrets, retained := [], [];
    NoneSortedYet(cluster.trace, s, resources, used);
    var names := [s.release + "-api", s.passwordSecret];
    for n := 0 to |names|
      invariant old(cluster.trace) <= cluster.trace && from == |old(cluster.trace)|
      invariant Quiet(cluster.trace, from)
      invariant forall r :: r in secrets + retained ==> r.kind == Secret && r.ns == s.ns && r.name in names
      invariant forall r :: r in secrets + retained ==>
        r.name != "" && forall q :: q in resources && q.kind == Secret ==> q.name != r.name
      invariant forall r :: r in secrets ==> r.name in used && SeenToken(cluster.trace, from, r, s.token)
      invariant cluster.failed == old(cluster.failed)
      invariant SecretsSorted(cluster.trace, from, s, resources, used, secrets, retained)
      invariant forall k :: 0 <= k < n && names[k] != "" ==> LookedFor(cluster.trace, from, Key(Secret, s.ns, names[k]))
    {
      var name := names[n];
      if name == "" { continue; }
      ghost var t := cluster.trace;
      var read, found := cluster.Get(Key(Secret, s.ns, name));
      GetIsQuiet(t, cluster.trace);
      QuietGrows(t, cluster.trace, from);
      SightingsGrow(t, cluster.trace, from);
      if !read { return false, secrets, retained; }
      LookGrows(t, cluster.trace, from, Key(Secret, s.ns, name));
      if found.None? || ListedSecret(resources, name) {
        NothingSorted(t, cluster.trace, s, resources, used, secrets, retained);
        SortedGrows(t, cluster.trace, from, s, resources, used, secrets, retained, [], []);
        assert secrets + [] == secrets && retained + [] == retained;
        continue;
      }
      var ref := Identity(Secret, s.ns, name, found.value.uid);
      if name !in used || s.token == "" || found.value.token != s.token {
        OneSorted(t, cluster.trace, s, resources, used, secrets + [], retained + [ref]);
        SortedGrows(t, cluster.trace, from, s, resources, used, secrets, retained, [], [ref]);
        assert secrets + [] == secrets;
        retained := retained + [ref];
      } else {
        OneSorted(t, cluster.trace, s, resources, used, secrets + [ref], retained + []);
        SortedGrows(t, cluster.trace, from, s, resources, used, secrets, retained, [ref], []);
        assert retained + [] == retained;
        TokenSeen(t, cluster.trace, from, ref, found.value, s.token);
        secrets := secrets + [ref];
      }
    }
    return true, secrets, retained;
  }

  predicate LookedFor(t: seq<Step>, from: nat, key: Key) {
    exists i :: from <= i < |t| && t[i].Looked? && t[i].key == key
  }

  lemma LookGrows(t: seq<Step>, u: seq<Step>, from: nat, key: Key)
    requires from <= |t| && t <= u && |u| == |t| + 1 && u[|t|].Looked? && u[|t|].key == key
    ensures LookedFor(u, from, key)
    ensures forall other :: LookedFor(t, from, other) ==> LookedFor(u, from, other)
  {
    forall other | LookedFor(t, from, other) ensures LookedFor(u, from, other) {
      var i :| from <= i < |t| && t[i].Looked? && t[i].key == other;
      assert u[i] == t[i];
    }
  }

  lemma NothingSorted(t: seq<Step>, u: seq<Step>, s: Server, resources: seq<Identity>, used: seq<string>,
                      secrets: seq<Identity>, retained: seq<Identity>)
    requires |u| == |t| + 1 && u[|t|].Looked?
    requires u[|t|].found.None? || ListedSecret(resources, u[|t|].key.name)
    ensures SecretsSorted(u, |t|, s, resources, used, secrets + [], retained + [])
  {
  }

  lemma OneSorted(t: seq<Step>, u: seq<Step>, s: Server, resources: seq<Identity>, used: seq<string>,
                  secrets: seq<Identity>, retained: seq<Identity>)
    requires |u| == |t| + 1 && u[|t|].Looked? && u[|t|].found.Some?
    requires var name, o := u[|t|].key.name, u[|t|].found.value;
      var ref := Identity(Secret, s.ns, name, o.uid);
      if name in used && s.token != "" && o.token == s.token then ref in secrets else ref in retained
    ensures SecretsSorted(u, |t|, s, resources, used, secrets, retained)
  {
  }

  lemma TokenSeen(t: seq<Step>, u: seq<Step>, from: nat, ref: Identity, o: Object, token: string)
    requires from <= |t| && u == t + [Looked(KeyOf(ref), Some(o))] && o.uid == ref.uid && o.token == token != ""
    ensures SeenToken(u, from, ref, token)
  {
    JustSeen(t, u, from, ref, o);
  }

  /** The plan holds the whole release: its resources, its claims, and every claim its deployment mounts
      but the temporary seed; with purge no claim from outside the release. */
  predicate CoversItems(p: Plan, items: seq<Item>, s: Server, mode: Mode) {
    && KeysOf(p.resources) == ItemKeys(items, false, s.ns)
    && ItemKeys(items, true, s.ns) <= KeysOf(p.worlds)
    && (mode == PurgeWorld ==> KeysOf(p.worlds) == ItemKeys(items, true, s.ns))
    && forall it, c :: it in items && it.kind == Deployment && c in it.claims ==>
         (s.seedClaim != "" && c == s.seedClaim) || Named(p.worlds, c)
  }

  lemma PrefixKeys(a: seq<Identity>, b: seq<Identity>)
    requires a <= b
    ensures KeysOf(a) <= KeysOf(b)
  {
    assert b[..|a|] == a;
    assert KeysOf(b)[..|a|] == KeysOf(a);
  }

  lemma Covers(p: Plan, items: seq<Item>, s: Server, mode: Mode, live: Object, released: seq<Identity>)
    requires KeysOf(p.resources) == ItemKeys(items, false, s.ns) && KeysOf(released) == ItemKeys(items, true, s.ns)
    requires released <= p.worlds && (mode == PurgeWorld ==> p.worlds == released)
    requires ManagedDeployment(items, s.release, live)
    requires forall c :: c in live.claims ==> (s.seedClaim != "" && c == s.seedClaim) || Named(p.worlds, c)
    ensures CoversItems(p, items, s, mode)
  {
    PrefixKeys(released, p.worlds);
    forall it, c | it in items && it.kind == Deployment && c in it.claims
      ensures (s.seedClaim != "" && c == s.seedClaim) || Named(p.worlds, c)
    {
      var j :| 0 <= j < |items| && items[j] == it;
    }
  }

  /** The plan is of the release that was looked at. */
  predicate PlanOfRelease(p: Plan, t: seq<Step>, at: nat, s: Server, mode: Mode, digest: string -> string,
                          decode: string -> seq<Document>)
  {
    && at < |t| && t[at].LookedAtRelease? && t[at].newest.Some?
    && var release := t[at].newest.value.release;
    && p.storage == t[at].newest.value.storage && p.revision == release.revision && p.digest == digest(release.manifest)
    && Acceptable(decode(release.manifest), s.ns, release.hooks)
    && CoversItems(p, Items(decode(release.manifest)), s, mode)
  }

  predicate SharedRelease(state: State, s: Server) {
    exists id :: id in state.servers && id != s.id && state.servers[id].ns == s.ns
      && state.servers[id].release == s.release
  }

  /** Why there is no plan: the release is shared, absent or not one that may be uninstalled, or what was seen of
      it forbids a plan. */
  ghost predicate NoPlan(t: seq<Step>, from: nat, s: Server, state: State, mode: Mode, panelNamespace: bool,
                         decode: string -> seq<Document>)
  {
    || SharedRelease(state, s)
    || (from < |t| && t[from] == LookedAtRelease(None))
    || (from < |t| && t[from].LookedAtRelease? && t[from].newest.Some? &&
        var r := t[from].newest.value.release;
        Acceptable(decode(r.manifest), s.ns, r.hooks) ==>
          Unplannable(t, from, Items(decode(r.manifest)), s, state, mode, panelNamespace))
  }

  lemma SharedReleaseIs(state: State, s: Server)
    ensures SharedRelease(state, s) <==>
      exists id ::
        id in state.servers && id != s.id && (state.servers[id].ns, state.servers[id].release) == (s.ns, s.release)
  {
  }

  lemma KindsFromKeys(items: seq<Item>, refs: seq<Identity>, claims: bool, ns: string)
    requires KeysOf(refs) == ItemKeys(items, claims, ns)
    requires forall it :: it in items ==> !it.kind.OtherKind?
    ensures forall r :: r in refs ==> (r.kind == Claim) == claims && !r.kind.OtherKind? && r.ns == ns
  {
    ItemKeysKinds(items, claims, ns);
    forall r | r in refs ensures (r.kind == Claim) == claims && !r.kind.OtherKind? && r.ns == ns {
      var k :| 0 <= k < |refs| && refs[k] == r;
      assert KeysOf(refs)[k] == KeyOf(r);
      assert KeyOf(r) in ItemKeys(items, claims, ns);
    }
  }

  lemma {:induction false} ItemKeysKinds(items: seq<Item>, claims: bool, ns: string)
    requires forall it :: it in items ==> !it.kind.OtherKind?
    ensures forall k :: k in ItemKeys(items, claims, ns) ==>
      (k.kind == Claim) == claims && !k.kind.OtherKind? && k.ns == ns
  {
    if items != [] { ItemKeysKinds(items[..|items|-1], claims, ns); }
  }

  /** `inspectDeletion`: changes nothing, and records only what it saw to be this server's. Every claim
      the deployment mounts is recorded or is the seed; with purge every recorded world belongs to the
      release. */
  method Inspect(cluster: Cluster, s: Server, state: State, mode: Mode, panelNamespace: bool)
    returns (plan: Option<Plan>)
    modifies cluster
    ensures old(cluster.trace) <= cluster.trace && Quiet(cluster.trace, |old(cluster.trace)|)
    ensures plan.Some? ==> WellFormed(plan.value, s)
    ensures plan.Some? ==> Evidence(cluster.trace, |old(cluster.trace)|, plan.value, s, mode)
    ensures plan.Some? ==> forall r :: r in plan.value.worlds ==> !Protected(state, s.id, r)
    ensures plan.Some? ==> forall id :: id in state.servers && id != s.id ==>
      state.servers[id].ns != s.ns || state.servers[id].release != s.release
    ensures plan.Some? ==> FoundClear(cluster.trace, |old(cluster.trace)|, plan.value, s, state, panelNamespace)
    ensures plan.Some? ==> exists i ::
      |old(cluster.trace)| <= i < |cluster.trace| && cluster.trace[i].LookedAtRelease? &&
      cluster.trace[i].newest.Some? &&
      NothingMissed(cluster.trace, |old(cluster.trace)|, plan.value,
                    Items(cluster.decode(cluster.trace[i].newest.value.release.manifest)), s)
    ensures old(cluster.failed) ==> cluster.failed
    ensures plan.None? && !cluster.failed ==>
      NoPlan(cluster.trace, |old(cluster.trace)|, s, state, mode, panelNamespace, cluster.decode)
    ensures plan.Some? ==>
      PlanOfRelease(plan.value, cluster.trace, |old(cluster.trace)|, s, mode, cluster.digest, cluster.decode)
  {
    hide SeenOwned, SeenSeed, SeenToken, Quiet, Acceptable, Protected, AllKept, ManagedDeployment, Clear, CoversItems,
      Unplannable, FoundClear, NothingMissed;
    ghost var from := |cluster.trace|;
    NothingQuiet(cluster.trace);
    if SharedRelease(state, s) { return None; }
    var ok, newest := cluster.NewestRelease(s.ns, s.release);
    LookIsQuiet(old(cluster.trace), cluster.trace);
    if ok { assert cluster.trace[from] == LookedAtRelease(newest); }
    if !ok || newest.None? { return None; }
    var release := newest.value.release;
    var items := ManifestResources(cluster.decode(release.manifest), s.ns, release.hooks);
    if items.None? { return None; }
    ExactlyClaimsAreKept(cluster.decode(release.manifest), s.ns, release.hooks);
    var draft := Plan(newest.value.storage, release.revision, cluster.digest(release.manifest), [], [], [], [], []);
    ghost var t := cluster.trace;
    plan := InspectItems(cluster, s, state, mode, panelNamespace, items.value, draft, from);
    assert cluster.trace[from] == t[from] == LookedAtRelease(newest);
  }

  lemma EvidenceGrows(t: seq<Step>, u: seq<Step>, from: nat, p: Plan, s: Server, mode: Mode)
    requires t <= u && Evidence(t, from, p, s, mode)
    ensures Evidence(u, from, p, s, mode)
  {
    hide SeenOwned, SeenSeed, SeenToken, AllKept;
    SightingsGrow(t, u, from);
    PhasesGrow(t, u, from);
  }

  /** What an inspection saw that forbids a plan: a resource that is not this release's, a deployment that does
      not match, claims that cannot be explained, a world that is not its own or not retained, or another user
      of what the plan would hold. */
  ghost predicate Unplannable(t: seq<Step>, from: nat, items: seq<Item>, s: Server, state: State, mode: Mode,
                              panelNamespace: bool)
  {
    || (exists it :: it in items && NotLive(t, from, it, s))
    || Mismatched(t, from, items, s)
    || (exists it :: it in items && it.kind == Deployment && Unexplained(t, from, it.claims, items, s, state, mode))
    || exists p :: Evidence(t, from, p, s, mode) && CoversItems(p, items, s, mode) &&
                   UsedElsewhere(t, from, p, s, state, panelNamespace)
  }

  /** The seed that the deployment mounts was looked for and recorded if it was there, and each Secret of the
      server was looked for and sorted. */
  ghost predicate NothingMissed(t: seq<Step>, from: nat, p: Plan, items: seq<Item>, s: Server) {
    forall it :: it in items && it.kind == Deployment ==>
      && (s.seedClaim != "" && s.seedClaim in it.claims ==> SeedRecorded(t, from, s, p.seeds))
      && exists later :: from <= later && SecretsDone(t, later, p, it.secrets, s)
  }

  ghost predicate SecretsDone(t: seq<Step>, from: nat, p: Plan, used: seq<string>, s: Server) {
    && SecretsSorted(t, from, s, p.resources, used, p.secrets, p.retainedSecrets)
    && forall name :: name in [s.release + "-api", s.passwordSecret] && name != "" ==>
         LookedFor(t, from, Key(Secret, s.ns, name))
  }

  lemma SecretsStayDone(t: seq<Step>, u: seq<Step>, from: nat, p: Plan, used: seq<string>, s: Server)
    requires t <= u && SecretsDone(t, from, p, used, s)
    requires forall i :: |t| <= i < |u| ==> !u[i].Looked?
    ensures SecretsDone(u, from, p, used, s)
  {
    assert forall i :: 0 <= i < |t| ==> u[i] == t[i];
    forall name | name in [s.release + "-api", s.passwordSecret] && name != ""
      ensures LookedFor(u, from, Key(Secret, s.ns, name))
    {
      var key := Key(Secret, s.ns, name);
      assert LookedFor(t, from, key);
      var i :| from <= i < |t| && t[i].Looked? && t[i].key == key;
      assert u[i] == t[i];
    }
  }

  lemma MissedNothing(t: seq<Step>, u: seq<Step>, from: nat, begun: nat, p: Plan, it: Item, items: seq<Item>,
                      s: Server)
    requires t <= u && from <= begun && SecretsDone(t, begun, p, it.secrets, s)
    requires forall i :: |t| <= i < |u| ==> !u[i].Looked?
    requires forall other :: other in items && other.kind == Deployment ==> other == it
    requires s.seedClaim != "" && s.seedClaim in it.claims ==> SeedRecorded(t, from, s, p.seeds)
    ensures NothingMissed(u, from, p, items, s)
  {
    hide SecretsDone, SeedRecorded;
    SecretsStayDone(t, u, begun, p, it.secrets, s);
    ClaimSightsStay(t, u, from, from, s);
  }

  predicate FoundClear(t: seq<Step>, from: nat, p: Plan, s: Server, state: State, panelNamespace: bool) {
    exists i :: from <= i < |t| && t[i].Listed? && Clear(t[i].workloads, p, true, state, s.id, panelNamespace)
  }

  predicate UsedElsewhere(t: seq<Step>, from: nat, p: Plan, s: Server, state: State, panelNamespace: bool) {
    exists i :: from <= i < |t| && t[i].Listed? && !Clear(t[i].workloads, p, true, state, s.id, panelNamespace)
  }

  /** Something is wrong with the claims that the deployment mounts. */
  ghost predicate Unexplained(t: seq<Step>, from: nat, claims: seq<string>, items: seq<Item>, s: Server, state: State,
                              mode: Mode)
  {
    || claims == [] || Mislabelled(t, from, s)
    || exists released ::
      KeysOf(released) == ItemKeys(items, true, s.ns) && BadClaims(t, from, claims, released, s, state, mode)
  }

  /** With `released` for the claims of the release: a mounted claim is external, no world is left, or a world
      that was seen is not mounted, protected or not retained. */
  ghost predicate BadClaims(t: seq<Step>, from: nat, claims: seq<string>, released: seq<Identity>, s: Server,
                            state: State, mode: Mode)
  {
    || (exists c :: c in claims && External(t, from, c, s, mode, released))
    || (released == [] && forall c :: c in claims ==> s.seedClaim != "" && c == s.seedClaim)
    || exists r: Identity :: r.kind == Claim && r.ns == s.ns && BadWorld(t, from, r, claims, released, s, state)
  }

  ghost predicate BadWorld(t: seq<Step>, from: nat, r: Identity, claims: seq<string>, released: seq<Identity>,
                           s: Server, state: State)
  {
    && Sighted(t, from, r) && (r in released || r.name in claims)
    && (r.name !in claims || Protected(state, s.id, r) || Unkept(t, from, r))
  }

  lemma ResourcesRefuse(t: seq<Step>, from: nat, later: nat, items: seq<Item>, s: Server, state: State, mode: Mode,
                        panelNamespace: bool)
    requires from <= later
    requires (exists it :: it in items && NotLive(t, later, it, s)) || Mismatched(t, later, items, s)
    ensures Unplannable(t, from, items, s, state, mode, panelNamespace)
  {
    hide NotLive, Differs;
    forall it | it in items
      ensures NotLive(t, later, it, s) ==> NotLive(t, from, it, s)
      ensures Differs(t, later, it, s) ==> Differs(t, from, it, s)
    {
      SightsStay(t, t, from, later, it, s);
    }
  }

  /** The deployment of a plan in the making, and what it mounts, as found in the manifest. */
  lemma ManagedItem(items: seq<Item>, s: Server, live: Object) returns (it: Item)
    requires ManagedDeployment(items, s.release, live)
    ensures it in items && it.kind == Deployment && it.claims == live.claims && it.secrets == live.secrets
    ensures forall other :: other in items && other.kind == Deployment ==> other == it
  {
    var k :|
      0 <= k < |items| && items[k].kind == Deployment && items[k].claims == live.claims &&
      items[k].secrets == live.secrets && forall j :: 0 <= j < |items| && items[j].kind == Deployment ==> j == k;
    it := items[k];
  }

  lemma ClaimsRefuse(t: seq<Step>, from: nat, it: Item, items: seq<Item>, released: seq<Identity>, s: Server,
                     state: State, mode: Mode, panelNamespace: bool)
    requires it in items && it.kind == Deployment && KeysOf(released) == ItemKeys(items, true, s.ns)
    requires it.claims == [] || Mislabelled(t, from, s) || BadClaims(t, from, it.claims, released, s, state, mode)
    ensures Unplannable(t, from, items, s, state, mode, panelNamespace)
  {
    hide BadClaims, Mislabelled;
    assert Unexplained(t, from, it.claims, items, s, state, mode);
  }

  lemma ExternalStays(t: seq<Step>, from: nat, later: nat, claims: seq<string>, released: seq<Identity>, s: Server,
                      state: State, mode: Mode)
    requires from <= later && exists c :: c in claims && External(t, later, c, s, mode, released)
    ensures BadClaims(t, from, claims, released, s, state, mode)
  {
    var c :| c in claims && External(t, later, c, s, mode, released);
    assert External(t, from, c, s, mode, released);
  }

  /** What the check of the worlds may find wrong. */
  lemma WorldsRefuse(t: seq<Step>, from: nat, later: nat, claims: seq<string>, released: seq<Identity>,
                     worlds: seq<Identity>, s: Server, state: State, mode: Mode)
    requires from <= later && released <= worlds
    requires forall r :: r in worlds ==> r.kind == Claim && r.ns == s.ns && Sighted(t, from, r)
    requires forall r :: r in worlds ==> r in released || r.name in claims
    requires forall c :: c in claims ==> (s.seedClaim != "" && c == s.seedClaim) || Named(worlds, c)
    requires worlds == [] ||
             exists r :: r in worlds && (r.name !in claims || Protected(state, s.id, r) || Unkept(t, later, r))
    ensures BadClaims(t, from, claims, released, s, state, mode)
  {
    hide Sighted, Unkept, Protected;
    ReasonsStay(t, t, from, later);
    if worlds != [] {
      var r :| r in worlds && (r.name !in claims || Protected(state, s.id, r) || Unkept(t, later, r));
      assert BadWorld(t, from, r, claims, released, s, state);
    }
  }

  lemma ReferencesRefuse(t: seq<Step>, from: nat, p: Plan, items: seq<Item>, s: Server, state: State, mode: Mode,
                         panelNamespace: bool)
    requires Evidence(t, from, p, s, mode) && CoversItems(p, items, s, mode)
    requires from < |t| && t[|t|-1].Listed? && !Clear(t[|t|-1].workloads, p, true, state, s.id, panelNamespace)
    ensures Unplannable(t, from, items, s, state, mode, panelNamespace)
  {
    assert UsedElsewhere(t, from, p, s, state, panelNamespace);
  }

  lemma OwnedIsSighted(t: seq<Step>, from: nat, r: Identity, release: string)
    requires SeenOwned(t, from, r, release)
    ensures Sighted(t, from, r)
  {
  }

  /** The last part: the Secrets, and a look for other users of all that the plan holds. */
  method AddSecrets(cluster: Cluster, s: Server, state: State, mode: Mode, panelNamespace: bool,
                    ghost items: seq<Item>, draft: Plan, used: seq<string>, ghost from: nat, ghost it: Item)
    returns (plan: Option<Plan>)
    requires from <= |cluster.trace| && Quiet(cluster.trace, from)
    requires draft.secrets == [] && WellFormed(draft, s) && Evidence(cluster.trace, from, draft, s, mode)
    requires CoversItems(draft, items, s, mode) && it.secrets == used
    requires forall other :: other in items && other.kind == Deployment ==> other == it
    requires s.seedClaim != "" && s.seedClaim in it.claims ==> SeedRecorded(cluster.trace, from, s, draft.seeds)
    modifies cluster
    ensures old(cluster.trace) <= cluster.trace && Quiet(cluster.trace, from)
    ensures plan.Some? ==>
      && plan.value == draft.(secrets := plan.value.secrets, retainedSecrets := plan.value.retainedSecrets)
      && WellFormed(plan.value, s) && Evidence(cluster.trace, from, plan.value, s, mode)
      && CoversItems(plan.value, items, s, mode)
    ensures old(cluster.failed) ==> cluster.failed
    ensures plan.Some? ==> FoundClear(cluster.trace, from, plan.value, s, state, panelNamespace)
    ensures plan.Some? ==> NothingMissed(cluster.trace, from, plan.value, items, s)
    ensures plan.None? && !cluster.failed ==> Unplannable(cluster.trace, from, items, s, state, mode, panelNamespace)
  {
    hide SeenOwned, SeenSeed, SeenToken, Quiet, AllKept, Clear, SeedRecorded, NothingMissed, Unplannable;
    ghost var t := cluster.trace;
    ghost var begun := |t|;
    var ok, secrets, retained := InspectSecrets(cluster, s, draft.resources, used);
    QuietGrows(t, cluster.trace, from);
    EvidenceGrows(t, cluster.trace, from, draft, s, mode);
    SightingsReach(cluster.trace, from, |t|);
    ClaimSightsStay(t, cluster.trace, from, from, s);
    if !ok { return None; }
    t := cluster.trace;
    var p := draft.(secrets := secrets, retainedSecrets := retained);
    assert Evidence(t, from, p, s, mode);
    assert SecretsDone(t, begun, p, used, s);
    ok := CheckReferences(cluster, p, true, state, s.id, panelNamespace);
    QuietGrows(t, cluster.trace, from);
    EvidenceGrows(t, cluster.trace, from, p, s, mode);
    if cluster.trace != t {
      assert LastListing(cluster.trace) == cluster.trace[|t|];
      MissedNothing(t, cluster.trace, from, begun, p, it, items, s);
      if !ok { ReferencesRefuse(cluster.trace, from, p, items, s, state, mode, panelNamespace); }
    }
    return if ok then Some(p) else None;
  }

  method InspectItems(cluster: Cluster, s: Server, state: State, mode: Mode, panelNamespace: bool, items: seq<Item>,
                      draft: Plan, ghost from: nat) returns (plan: Option<Plan>)
    requires from <= |cluster.trace| && Quiet(cluster.trace, from)
    requires draft.secrets == []
    requires forall it :: it in items ==> !it.kind.OtherKind?
    modifies cluster
    ensures old(cluster.trace) <= cluster.trace && Quiet(cluster.trace, from)
    ensures plan.Some? ==> WellFormed(plan.value, s)
    ensures plan.Some? ==> Evidence(cluster.trace, from, plan.value, s, mode)
    ensures plan.Some? ==> forall r :: r in plan.value.worlds ==> !Protected(state, s.id, r)
    ensures plan.Some? ==> plan.value.storage == draft.storage && plan.value.revision == draft.revision
    ensures plan.Some? ==> plan.value.digest == draft.digest && CoversItems(plan.value, items, s, mode)
    ensures old(cluster.failed) ==> cluster.failed
    ensures plan.Some? ==> FoundClear(cluster.trace, from, plan.value, s, state, panelNamespace)
    ensures plan.Some? ==> NothingMissed(cluster.trace, from, plan.value, items, s)
    ensures plan.None? && !cluster.failed ==> Unplannable(cluster.trace, from, items, s, state, mode, panelNamespace)
  {
    hide SeenOwned, SeenSeed, SeenToken, Quiet, Protected, AllKept, Kept, ManagedDeployment, Clear, CoversItems, Named,
      NotLive, Mismatched, NothingMissed, Mislabelled, Sighted, External, SeedRecorded, Unkept, Unplannable, BadClaims,
      FoundClear;
    ghost var t := cluster.trace;
    var ok, resources, released, deployment := InspectResources(cluster, s, items);
    QuietGrows(t, cluster.trace, from);
    SightingsReach(cluster.trace, from, |t|);
    if !ok {
      if !cluster.failed { ResourcesRefuse(cluster.trace, from, |t|, items, s, state, mode, panelNamespace); }
      return None;
    }
    ghost var it := ManagedItem(items, s, deployment.value);
    if deployment.value.claims == [] {
      ClaimsRefuse(cluster.trace, from, it, items, released, s, state, mode, panelNamespace);
      return None;
    }
    forall r | r in released ensures Sighted(cluster.trace, from, r) {
      OwnedIsSighted(cluster.trace, from, r, s.release);
    }
    KindsFromKeys(items, resources, false, s.ns);
    KindsFromKeys(items, released, true, s.ns);
    t := cluster.trace;
    var worlds, seeds;
    ok, worlds, seeds := InspectClaims(cluster, s, mode, deployment.value.claims, released);
    QuietGrows(t, cluster.trace, from);
    SightingsGrow(t, cluster.trace, from);
    SightingsReach(cluster.trace, from, |t|);
    ClaimSightsStay(t, cluster.trace, from, from, s);
    ClaimSightsStay(cluster.trace, cluster.trace, from, |t|, s);
    if !ok {
      if !cluster.failed {
        if !Mislabelled(cluster.trace, from, s) {
          ExternalStays(cluster.trace, from, |t|, it.claims, released, s, state, mode);
        }
        ClaimsRefuse(cluster.trace, from, it, items, released, s, state, mode, panelNamespace);
      }
      return None;
    }
    t := cluster.trace;
    ok := InspectWorlds(cluster, worlds, deployment.value.claims, state, s.id);
    QuietGrows(t, cluster.trace, from);
    SightingsGrow(t, cluster.trace, from);
    PhasesReach(cluster.trace, from, |t|);
    ClaimSightsStay(t, cluster.trace, from, from, s);
    if !ok {
      if !cluster.failed {
        WorldsRefuse(cluster.trace, from, |t|, it.claims, released, worlds, s, state, mode);
        ClaimsRefuse(cluster.trace, from, it, items, released, s, state, mode, panelNamespace);
      }
      return None;
    }
    var p := draft.(resources := resources, worlds := worlds, seeds := seeds);
    Covers(p, items, s, mode, deployment.value, released);
    plan := AddSecrets(cluster, s, state, mode, panelNamespace, items, p, deployment.value.secrets, from, it);
  }
}
