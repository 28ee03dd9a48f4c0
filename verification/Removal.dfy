/** One removal attempt: check everything first, then uninstall and delete the recorded objects. */
module Removal {
  import opened Options
  import opened Manifest
  import opened Cluster
  import opened References

  datatype Mode = KeepWorld | PurgeWorld

  datatype Context = Context(ns: string, release: string, mode: Mode, plan: Plan, deleting: string,
                             state: State, panelNamespace: bool)

  predicate Supportable(kind: Kind) { !kind.OtherKind? }

  function Planned(p: Plan): set<Identity> { set r | r in AllRefs(p) }

  function NotStorage(p: Plan): set<Identity> { set r | r in p.resources + p.secrets }

  /** The objects an attempt in this mode may delete by name and UID. */
  function Deletable(c: Context): set<Identity> {
    if c.mode == KeepWorld then NotStorage(c.plan) else Planned(c.plan)
  }

  /** The checked release is the recorded one and fit for an uninstall. */
  predicate RecordedRelease(s: Stored, plan: Plan, digest: string -> string, decode: string -> seq<Document>,
      ns: string)
  {
    && s.storage == plan.storage && s.release.revision == plan.revision && digest(s.release.manifest) == plan.digest
    && Acceptable(decode(s.release.manifest), ns, s.release.hooks)
  }

  /** Every uninstall was of the recorded release, and nothing it removed was a claim. */
  predicate UninstallsSpareClaims(t: seq<Step>, from: nat, plan: Plan, digest: string -> string) {
    forall i :: from <= i < |t| && t[i].Uninstalled? ==>
      && t[i].release.revision == plan.revision && digest(t[i].release.manifest) == plan.digest
      && forall id :: id in t[i].removed ==> id.kind != Claim
  }

  lemma UninstallsGrow(t: seq<Step>, u: seq<Step>, from: nat, plan: Plan, digest: string -> string)
    requires t <= u && from <= |t|
    ensures UninstallsSpareClaims(t, from, plan, digest) && UninstallsSpareClaims(u, |t|, plan, digest) ==>
      UninstallsSpareClaims(u, from, plan, digest)
    ensures NoUninstall(u, from) ==> UninstallsSpareClaims(u, from, plan, digest)
  {
    assert forall i :: 0 <= i < |t| ==> u[i] == t[i];
  }

  lemma RemovableAreNoClaims(docs: seq<Document>, ns: string, hooks: nat)
    requires Acceptable(docs, ns, hooks)
    ensures forall k :: k in Removable(Items(docs), ns) ==> k.kind != Claim
  {
    ExactlyClaimsAreKept(docs, ns, hooks);
  }

  lemma UninstallSparesClaims(t: seq<Step>, u: seq<Step>, s: Stored, plan: Plan, digest: string -> string,
                              decode: string -> seq<Document>, ns: string)
    requires t <= u && |u| == |t| + 1 && RecordedRelease(s, plan, digest, decode, ns)
    requires IsUninstall(u[|t|], s.release, Removable(Items(decode(s.release.manifest)), ns))
    ensures UninstallsSpareClaims(u, |t|, plan, digest) && OnlyDeletes(u, |t|, {})
  {
    RemovableAreNoClaims(decode(s.release.manifest), ns, s.release.hooks);
    forall id | id in u[|t|].removed ensures id.kind != Claim {
      assert KeyOf(id).kind != Claim;
    }
  }

  /** A look that found the recorded object itself, of a kind that may be deleted. */
  predicate SeenUnderUid(s: Step, ref: Identity) {
    s.Looked? && s.key == KeyOf(ref) && s.found.Some? && s.found.value.uid == ref.uid && !ref.kind.OtherKind?
  }

  /** `deleteIdentity`: deletes the recorded object and nothing else, and reports success only once the
      name was seen free. It deletes only what it has just seen under its UID. */
  method DeleteIdentity(cluster: Cluster, ref: Identity) returns (ok: bool)
    modifies cluster
    ensures old(cluster.trace) <= cluster.trace
    ensures OnlyDeletes(cluster.trace, |old(cluster.trace)|, {ref}) && NoUninstall(cluster.trace, |old(cluster.trace)|)
    ensures ok ==> Gone(cluster.trace, |old(cluster.trace)|, ref)
    ensures old(cluster.failed) ==> cluster.failed
    ensures !ok && !cluster.failed ==> Stuck(cluster.trace, |old(cluster.trace)|, ref)
    ensures forall i :: |old(cluster.trace)| <= i < |cluster.trace| && cluster.trace[i].Deleted? ==>
      i > |old(cluster.trace)| && SeenUnderUid(cluster.trace[i-1], ref)
  {
    ghost var from := |cluster.trace|;
    var read, live := cluster.Get(KeyOf(ref));
    if !read { return false; }
    if live.None? {
      assert cluster.trace[|old(cluster.trace)|] == Looked(KeyOf(ref), None);
      return true;
    }
    assert cluster.trace[from] == Looked(KeyOf(ref), live);
    if live.value.uid != ref.uid || !Supportable(ref.kind) { return false; }
    ok := cluster.DeleteRaw(ref);
    if !ok { return; }
    ghost var n := |cluster.trace|;
    read, live := cluster.Get(KeyOf(ref));
    ok := read && live.None?;
    assert read ==> cluster.trace[n] == Looked(KeyOf(ref), live) && cluster.trace[n-1] == Deleted(ref);
  }

  /** Steps that only delete, within `allowed`. */
  predicate Deletes(t: seq<Step>, from: nat, allowed: set<Identity>) {
    OnlyDeletes(t, from, allowed) && NoUninstall(t, from)
  }

  lemma DeletesGrow(t: seq<Step>, u: seq<Step>, from: nat, a: set<Identity>, b: set<Identity>, c: set<Identity>)
    requires t <= u && from <= |t| && Deletes(t, from, a) && Deletes(u, |t|, b) && a <= c && b <= c
    ensures Deletes(u, from, c)
  {
    assert forall i :: 0 <= i < |t| ==> u[i] == t[i];
  }

  predicate AllGone(t: seq<Step>, from: nat, refs: seq<Identity>) { forall r :: r in refs ==> Gone(t, from, r) }
  ghost predicate AllKept(t: seq<Step>, from: nat, refs: seq<Identity>) { forall r :: r in refs ==> Kept(t, from, r) }
  ghost predicate AllUnreplaced(t: seq<Step>, from: nat, refs: seq<Identity>) {
    forall r :: r in refs ==> Unreplaced(t, from, r)
  }

  lemma PhasesGrow(t: seq<Step>, u: seq<Step>, from: nat)
    requires t <= u
    ensures forall refs :: AllGone(t, from, refs) ==> AllGone(u, from, refs)
    ensures forall refs :: AllKept(t, from, refs) ==> AllKept(u, from, refs)
    ensures forall refs :: AllUnreplaced(t, from, refs) ==> AllUnreplaced(u, from, refs)
  {
    RecordGrows(t, u, from);
  }

  lemma PhasesReach(t: seq<Step>, from: nat, later: nat)
    requires from <= later
    ensures forall refs :: AllGone(t, later, refs) ==> AllGone(t, from, refs)
    ensures forall refs :: AllKept(t, later, refs) ==> AllKept(t, from, refs)
    ensures forall refs :: AllUnreplaced(t, later, refs) ==> AllUnreplaced(t, from, refs)
  {
    EarlierShowsMore(t, from, later);
  }

  /** What happens before a delete: planned resources are read and skipped when absent, purged claims are
      read first, seeds and Secrets are not. */
  datatype Before = SkipAbsent | Read | Nothing

  /** Deletes one list in order and stops at the first failure. */
  method DeleteAll(cluster: Cluster, refs: seq<Identity>, before: Before) returns (ok: bool)
    modifies cluster
    ensures old(cluster.trace) <= cluster.trace
    ensures Deletes(cluster.trace, |old(cluster.trace)|, set r | r in refs)
    ensures ok ==> AllGone(cluster.trace, |old(cluster.trace)|, refs)
    ensures old(cluster.failed) ==> cluster.failed
    ensures !ok && !cluster.failed ==> exists r :: r in refs && Stuck(cluster.trace, |old(cluster.trace)|, r)
  {
    hide Gone, OnlyDeletes, NoUninstall, Stuck;
    ghost var from := |cluster.trace|;
    ghost var all := set r | r in refs;
    NothingYet(cluster.trace, all);
    for n := 0 to |refs|
      invariant old(cluster.trace) <= cluster.trace && from == |old(cluster.trace)|
      invariant Deletes(cluster.trace, from, all)
      invariant forall k :: 0 <= k < n ==> Gone(cluster.trace, from, refs[k])
      invariant old(cluster.failed) ==> cluster.failed
    {
      ghost var t := cluster.trace;
      var ref := refs[n];
      ok := DeleteOne(cluster, ref, before);
      DeletesGrow(t, cluster.trace, from, all, {ref}, all);
      ReasonsStay(cluster.trace, cluster.trace, from, |t|);
      if !ok { return; }
      RecordGrows(t, cluster.trace, from);
      EarlierShowsMore(cluster.trace, from, |t|);
    }
    return true;
  }

  lemma NothingYet(t: seq<Step>, allowed: set<Identity>)
    ensures Deletes(t, |t|, allowed)
  {
  }

  method DeleteOne(cluster: Cluster, ref: Identity, before: Before) returns (ok: bool)
    modifies cluster
    ensures old(cluster.trace) <= cluster.trace
    ensures Deletes(cluster.trace, |old(cluster.trace)|, {ref})
    ensures ok ==> Gone(cluster.trace, |old(cluster.trace)|, ref)
    ensures old(cluster.failed) ==> cluster.failed
    ensures !ok && !cluster.failed ==> Stuck(cluster.trace, |old(cluster.trace)|, ref)
  {
    hide Stuck;
    ghost var from := |cluster.trace|;
    if before != Nothing {
      var read, live := cluster.Get(KeyOf(ref));
      if !read { return false; }
      if live.None? && before == SkipAbsent {
        assert cluster.trace[from] == Looked(KeyOf(ref), None);
        return true;
      }
    }
    ghost var t := cluster.trace;
    ok := DeleteIdentity(cluster, ref);
    DeletesGrow(t, cluster.trace, from, {}, {ref}, {ref});
    EarlierShowsMore(cluster.trace, from, |t|);
    ReasonsStay(cluster.trace, cluster.trace, from, |t|);
  }

  /** Reads a list of claims that are to stay: each must still be the recorded one and retained. */
  method ConfirmKept(cluster: Cluster, refs: seq<Identity>) returns (ok: bool)
    modifies cluster
    ensures old(cluster.trace) <= cluster.trace
    ensures Deletes(cluster.trace, |old(cluster.trace)|, {})
    ensures ok ==> AllKept(cluster.trace, |old(cluster.trace)|, refs)
    ensures old(cluster.failed) ==> cluster.failed
    ensures !ok && !cluster.failed ==> exists r :: r in refs && Unkept(cluster.trace, |old(cluster.trace)|, r)
  {
    hide Gone, Retained;
    ghost var from := |cluster.trace|;
    for n := 0 to |refs|
      invariant old(cluster.trace) <= cluster.trace && from == |old(cluster.trace)|
      invariant Deletes(cluster.trace, from, {})
      invariant forall k :: 0 <= k < n ==> Kept(cluster.trace, from, refs[k])
      invariant old(cluster.failed) ==> cluster.failed
    {
      ghost var t := cluster.trace;
      var read, live := cluster.Get(KeyOf(refs[n]));
      if read { assert cluster.trace[|t|] == Looked(KeyOf(refs[n]), live); }
      if !read || live.None? || !Retained(live.value, refs[n]) {
        assert read ==> Unkept(cluster.trace, from, refs[n]);
        return false;
      }
      assert cluster.trace[|t|] == Looked(KeyOf(refs[n]), Some(live.value));
      assert Shows(cluster.trace, from, refs[n], live.value);
      RecordGrows(t, cluster.trace, from);
    }
    return true;
  }

  /** A seed or world claim, once seen, must be the recorded one and retained unless it may be gone. */
  predicate Fit(live: Option<Object>, ref: Identity, c: Context, held: bool) {
    && (live.Some? ==> live.value.uid == ref.uid)
    && (ref in c.plan.worlds && (held || c.mode == KeepWorld || live.Some?) ==> live.Some? && Retained(live.value, ref))
    && (ref in c.plan.seeds && c.mode == KeepWorld ==> live.Some? && Retained(live.value, ref))
    && (held && ref in c.plan.resources && live.Some? ==> HelmOwned(live.value, ref.ns, c.release))
  }

  lemma FitIs(live: Option<Object>, ref: Identity, c: Context, held: bool)
    ensures Fit(live, ref, c, held) <==> match live
      case None =>
        && (ref in c.plan.worlds ==> !held && c.mode == PurgeWorld)
        && (ref in c.plan.seeds ==> c.mode == PurgeWorld)
      case Some(o) =>
        && o.uid == ref.uid
        && (ref in c.plan.worlds || (ref in c.plan.seeds && c.mode == KeepWorld) ==>
              !o.terminating && o.owners == 0 && o.bound)
        && (held && ref in c.plan.resources ==> o.releaseName == c.release && o.releaseNamespace == ref.ns)
  {
  }

  ghost predicate SeenFit(t: seq<Step>, from: nat, ref: Identity, c: Context, held: bool) {
    exists live :: Fit(live, ref, c, held) && SeenAs(t, from, ref, live)
  }

  predicate SeenAs(t: seq<Step>, from: nat, ref: Identity, live: Option<Object>) {
    exists i :: from <= i < |t| && t[i] == Looked(KeyOf(ref), live)
  }

  lemma SeenFitGrows(t: seq<Step>, u: seq<Step>, from: nat, ref: Identity, c: Context, held: bool)
    requires t <= u && SeenFit(t, from, ref, c, held)
    ensures SeenFit(u, from, ref, c, held)
  {
    var live :| Fit(live, ref, c, held) && SeenAs(t, from, ref, live);
    var i :| from <= i < |t| && t[i] == Looked(KeyOf(ref), live);
    assert u[i] == Looked(KeyOf(ref), live);
    assert SeenAs(u, from, ref, live);
  }

  ghost predicate AllFit(t: seq<Step>, from: nat, c: Context, held: bool) {
    forall r :: r in AllRefs(c.plan) ==> SeenFit(t, from, r, c, held)
  }

  /** What the checks must have seen of every planned object: its name free or the recorded UID under it; a
      world in place, bound, without owners and not terminating, unless the release is gone, worlds are to be
      purged and it is gone too; so a seed that is to be kept; and a resource of a release that is still there
      only as this release's own. */
  lemma AllFitMeans(t: seq<Step>, from: nat, c: Context, held: bool, ref: Identity)
    requires AllFit(t, from, c, held)
    requires ref in c.plan.resources || ref in c.plan.secrets || ref in c.plan.seeds || ref in c.plan.worlds
    ensures
      || (&& Gone(t, from, ref) && (ref in c.plan.worlds ==> !held && c.mode == PurgeWorld)
          && (ref in c.plan.seeds ==> c.mode == PurgeWorld))
      || exists o ::
           && Shows(t, from, ref, o) && o.uid == ref.uid
           && (ref in c.plan.worlds || (ref in c.plan.seeds && c.mode == KeepWorld) ==>
                 !o.terminating && o.owners == 0 && o.bound)
           && (held && ref in c.plan.resources ==> o.releaseName == c.release && o.releaseNamespace == ref.ns)
  {
    assert ref in AllRefs(c.plan);
    var live :| Fit(live, ref, c, held) && SeenAs(t, from, ref, live);
    if live.Some? { assert Shows(t, from, ref, live.value); }
  }

  /** Reads every planned object before anything is touched. */
  method CheckPlanned(cluster: Cluster, c: Context, held: bool) returns (ok: bool)
    modifies cluster
    ensures old(cluster.trace) <= cluster.trace && Quiet(cluster.trace, |old(cluster.trace)|)
    ensures ok ==> AllFit(cluster.trace, |old(cluster.trace)|, c, held)
    ensures old(cluster.failed) ==> cluster.failed
    ensures !ok && !cluster.failed ==> SomeUnfit(cluster.trace, |old(cluster.trace)|, c, held)
  {
    hide Fit;
    ghost var from := |cluster.trace|;
    var refs := AllRefs(c.plan);
    for n := 0 to |refs|
      invariant old(cluster.trace) <= cluster.trace && from == |old(cluster.trace)|
      invariant Quiet(cluster.trace, from)
      invariant forall k :: 0 <= k < n ==> SeenFit(cluster.trace, from, refs[k], c, held)
      invariant old(cluster.failed) ==> cluster.failed
    {
      ghost var t := cluster.trace;
      var read, live := cluster.Get(KeyOf(refs[n]));
      if read {
        assert cluster.trace[|t|] == Looked(KeyOf(refs[n]), live);
        assert SeenAs(cluster.trace, from, refs[n], live);
      }
      if !read || !Fit(live, refs[n], c, held) { return false; }
      assert cluster.trace[|t|] == Looked(KeyOf(refs[n]), live);
      assert SeenAs(cluster.trace, from, refs[n], live);
      forall k | 0 <= k < n ensures SeenFit(cluster.trace, from, refs[k], c, held) {
        SeenFitGrows(t, cluster.trace, from, refs[k], c, held);
      }
    }
    return true;
  }

  /** The newest release, which must be the recorded one, fit for an uninstall, or gone. */
  method CheckRelease(cluster: Cluster, c: Context) returns (ok: bool, held: Option<Stored>)
    modifies cluster
    ensures old(cluster.trace) <= cluster.trace && Quiet(cluster.trace, |old(cluster.trace)|)
    ensures ok && held.Some? ==> RecordedRelease(held.value, c.plan, cluster.digest, cluster.decode, c.ns)
    ensures old(cluster.failed) ==> cluster.failed
    ensures !ok && !cluster.failed ==>
      WrongRelease(cluster.trace, |old(cluster.trace)|, c, cluster.digest, cluster.decode)
  {
    hide Acceptable;
    ok, held := cluster.NewestRelease(c.ns, c.release);
    if !ok { return; }
    assert cluster.trace[|old(cluster.trace)|] == LookedAtRelease(held);
    if held.Some? {
      var s := held.value;
      if s.storage != c.plan.storage || s.release.revision != c.plan.revision
        || cluster.digest(s.release.manifest) != c.plan.digest
      {
        return false, held;
      }
      var items := ManifestResources(cluster.decode(s.release.manifest), c.ns, s.release.hooks);
      if items.None? { return false, held; }
    }
  }

  /** Everything an attempt looks at before it touches anything. */
  method Check(cluster: Cluster, c: Context) returns (ok: bool, held: Option<Stored>)
    modifies cluster
    ensures old(cluster.trace) <= cluster.trace && Quiet(cluster.trace, |old(cluster.trace)|)
    ensures ok && held.Some? ==> RecordedRelease(held.value, c.plan, cluster.digest, cluster.decode, c.ns)
    ensures ok ==> AllFit(cluster.trace, |old(cluster.trace)|, c, held.Some?)
    ensures ok ==> SeenClear(cluster.trace, |old(cluster.trace)|, c, held.Some?)
    ensures old(cluster.failed) ==> cluster.failed
    ensures !ok && !cluster.failed ==>
      Forbidden(cluster.trace, |old(cluster.trace)|, c, cluster.digest, cluster.decode)
  {
    hide AllFit, Clear, SomeUnfit, SeenClear, SeenUnclear, RecordedRelease, WrongRelease, Quiet;
    ghost var from := |cluster.trace|;
    ok, held := CheckRelease(cluster, c);
    if !ok { return; }
    ghost var t := cluster.trace;
    ok := CheckPlanned(cluster, c, held.Some?);
    Appended(t, cluster.trace, from, {});
    if !ok {
      if !cluster.failed { UnfitStays(cluster.trace, cluster.trace, from, |t|, c, held.Some?); }
      return;
    }
    ghost var u := cluster.trace;
    AllFitReaches(u, from, |t|, c, held.Some?);
    ok := CheckReferences(cluster, c.plan, held.Some?, c.state, c.deleting, c.panelNamespace);
    Appended(u, cluster.trace, from, {});
    AllFitGrows(u, cluster.trace, from, c, held.Some?);
    if cluster.trace != u {
      assert LastListing(cluster.trace) == cluster.trace[|u|];
      ListedNow(cluster.trace, from, c, held.Some?);
    }
  }

  lemma ListedNow(t: seq<Step>, from: nat, c: Context, before: bool)
    requires from < |t| && t[|t|-1].Listed?
    ensures if Clear(t[|t|-1].workloads, c.plan, before, c.state, c.deleting, c.panelNamespace)
      then SeenClear(t, from, c, before) else SeenUnclear(t, from, c, before)
  {
  }

  /** A planned object was seen in a state in which the attempt must not go on. */
  ghost predicate SomeUnfit(t: seq<Step>, from: nat, c: Context, held: bool) {
    exists r, live :: r in AllRefs(c.plan) && SeenAs(t, from, r, live) && !Fit(live, r, c, held)
  }

  /** A listing showed nobody else using anything planned, and the plan's own workloads at most `before`. */
  predicate SeenClear(t: seq<Step>, from: nat, c: Context, before: bool) {
    exists i :: from <= i < |t| && t[i].Listed? &&
                Clear(t[i].workloads, c.plan, before, c.state, c.deleting, c.panelNamespace)
  }

  predicate SeenUnclear(t: seq<Step>, from: nat, c: Context, before: bool) {
    exists i :: from <= i < |t| && t[i].Listed? &&
                !Clear(t[i].workloads, c.plan, before, c.state, c.deleting, c.panelNamespace)
  }

  predicate WrongRelease(t: seq<Step>, from: nat, c: Context, digest: string -> string,
                         decode: string -> seq<Document>)
  {
    exists i :: from <= i < |t| && t[i].LookedAtRelease? && t[i].newest.Some? &&
                !RecordedRelease(t[i].newest.value, c.plan, digest, decode, c.ns)
  }

  /** What the checks saw that forbids an uninstall: another release, an unfit object or a foreign user. */
  ghost predicate Forbidden(t: seq<Step>, from: nat, c: Context, digest: string -> string,
                            decode: string -> seq<Document>)
  {
    || WrongRelease(t, from, c, digest, decode)
    || exists held :: SomeUnfit(t, from, c, held) || SeenUnclear(t, from, c, held)
  }

  lemma UnfitStays(t: seq<Step>, u: seq<Step>, from: nat, later: nat, c: Context, held: bool)
    requires t <= u && from <= later && SomeUnfit(t, later, c, held)
    ensures SomeUnfit(u, from, c, held)
  {
    var r, live :| r in AllRefs(c.plan) && SeenAs(t, later, r, live) && !Fit(live, r, c, held);
    var i :| later <= i < |t| && t[i] == Looked(KeyOf(r), live);
    assert u[i] == t[i] && SeenAs(u, from, r, live);
  }

  lemma AllFitReaches(t: seq<Step>, from: nat, later: nat, c: Context, held: bool)
    requires from <= later && AllFit(t, later, c, held)
    ensures AllFit(t, from, c, held)
  {
    hide Fit;
    forall r | r in AllRefs(c.plan) ensures SeenFit(t, from, r, c, held) {
      var live :| Fit(live, r, c, held) && SeenAs(t, later, r, live);
      assert SeenAs(t, from, r, live);
    }
  }

  lemma AllFitGrows(t: seq<Step>, u: seq<Step>, from: nat, c: Context, held: bool)
    requires t <= u && AllFit(t, from, c, held)
    ensures AllFit(u, from, c, held)
  {
    hide SeenFit;
    forall r | r in AllRefs(c.plan) ensures SeenFit(u, from, r, c, held) {
      SeenFitGrows(t, u, from, r, c, held);
    }
  }

  /** Claims that are kept were seen in place; claims that are purged were seen gone. */
  ghost predicate Disposed(t: seq<Step>, from: nat, c: Context, refs: seq<Identity>) {
    if c.mode == KeepWorld then AllKept(t, from, refs) else AllGone(t, from, refs)
  }

  /** What a successful attempt has seen after its checks. */
  ghost predicate Finished(t: seq<Step>, from: nat, c: Context) {
    && AllGone(t, from, c.plan.resources) && AllGone(t, from, c.plan.secrets)
    && Disposed(t, from, c, c.plan.worlds) && Disposed(t, from, c, c.plan.seeds)
    && ListedClear(t, from, c)
    && from < |t| && t[|t|-1] == LookedAtRelease(None)
  }

  /** Which sightings a finished removal rests on, all made after the checks: resources, Secrets and purged storage
      under free names, kept storage bound, unowned and not terminating under its recorded UID, a listing in
      which nothing of the plan is left or used, and last of all no release. */
  lemma FinishedMeans(t: seq<Step>, from: nat, c: Context, ref: Identity)
    requires Finished(t, from, c)
    ensures var key, storage := Key(ref.kind, ref.ns, ref.name), ref in c.plan.worlds || ref in c.plan.seeds;
      && (ref in c.plan.resources || ref in c.plan.secrets || (storage && c.mode == PurgeWorld) ==>
            exists i :: from <= i < |t| && t[i] == Looked(key, None))
      && (storage && c.mode == KeepWorld ==>
            exists i, o ::
              from <= i < |t| && t[i] == Looked(key, Some(o)) && o.uid == ref.uid && !o.terminating && o.owners == 0
              && o.bound)
    ensures exists i ::
      from <= i < |t| && t[i].Listed? && Clear(t[i].workloads, c.plan, false, c.state, c.deleting, c.panelNamespace)
    ensures t[|t|-1] == LookedAtRelease(None) && from < |t|
  {
    if (ref in c.plan.worlds || ref in c.plan.seeds) && c.mode == KeepWorld {
      assert Kept(t, from, ref);
      var o :| Shows(t, from, ref, o) && Retained(o, ref);
      var i :| from <= i < |t| && t[i] == Looked(KeyOf(ref), Some(o));
      assert t[i] == Looked(Key(ref.kind, ref.ns, ref.name), Some(o));
    }
    if ref in c.plan.resources || ref in c.plan.secrets ||
      ((ref in c.plan.worlds || ref in c.plan.seeds) && c.mode == PurgeWorld)
    {
      assert Gone(t, from, ref);
    }
  }

  /** Deletions within the mode's bounds, and uninstalls that spare claims. */
  predicate Within(t: seq<Step>, from: nat, c: Context, digest: string -> string) {
    OnlyDeletes(t, from, Deletable(c)) && UninstallsSpareClaims(t, from, c.plan, digest)
  }

  lemma WithinGrows(t: seq<Step>, u: seq<Step>, from: nat, c: Context, digest: string -> string)
    requires t <= u && from <= |t| && Within(t, from, c, digest) && Within(u, |t|, c, digest)
    ensures Within(u, from, c, digest)
  {
    Appended(t, u, from, Deletable(c));
    UninstallsGrow(t, u, from, c.plan, digest);
  }

  lemma DeletesWithin(t: seq<Step>, from: nat, allowed: set<Identity>, c: Context, digest: string -> string)
    requires Deletes(t, from, allowed) && allowed <= Deletable(c)
    ensures Within(t, from, c, digest)
  {
  }

  lemma QuietWithin(t: seq<Step>, from: nat, c: Context, digest: string -> string)
    requires Quiet(t, from)
    ensures Within(t, from, c, digest)
  {
  }

  lemma KeepIsNarrower(t: seq<Step>, from: nat, c: Context, digest: string -> string)
    requires Within(t, from, c.(mode := KeepWorld), digest)
    ensures Within(t, from, c, digest)
  {
  }

  /** Claims go last: a recorded claim is deleted only after a listing showed the plan's workloads gone
      and nobody else using anything planned. */
  predicate StorageLast(t: seq<Step>, from: nat, c: Context) {
    forall i :: from <= i < |t| && t[i].Deleted? && t[i].id !in NotStorage(c.plan) ==> ListedClear(t[..i], from, c)
  }

  lemma StorageLastStarts(t: seq<Step>, from: nat, c: Context, digest: string -> string)
    requires Within(t, from, c.(mode := KeepWorld), digest)
    ensures StorageLast(t, from, c)
  {
  }

  lemma StorageLastGrows(t: seq<Step>, u: seq<Step>, from: nat, c: Context)
    requires t <= u && StorageLast(t, from, c) && ListedClear(t, from, c)
    ensures StorageLast(u, from, c)
  {
    hide ListedClear;
    forall i | from <= i < |u| && u[i].Deleted? && u[i].id !in NotStorage(c.plan) ensures ListedClear(u[..i], from, c) {
      if i < |t| {
        assert u[..i] == t[..i] && u[i] == t[i];
      } else {
        ListedClearGrows(t, u[..i], from, c);
      }
    }
  }

  method UninstallHeld(cluster: Cluster, c: Context, held: Option<Stored>) returns (ok: bool)
    requires held.Some? ==> RecordedRelease(held.value, c.plan, cluster.digest, cluster.decode, c.ns)
    modifies cluster
    ensures old(cluster.trace) <= cluster.trace
    ensures Within(cluster.trace, |old(cluster.trace)|, c, cluster.digest)
    ensures cluster.failed == (old(cluster.failed) || !ok)
    ensures if held.None? then cluster.trace == old(cluster.trace) else
      |cluster.trace| == |old(cluster.trace)| + 1 && cluster.trace[|old(cluster.trace)|].Uninstalled?
        && cluster.trace[|old(cluster.trace)|].release == held.value.release
  {
    if held.None? { return true; }
    ok := cluster.Uninstall(held.value.release, c.ns);
    UninstallSparesClaims(old(cluster.trace), cluster.trace, held.value, c.plan, cluster.digest, cluster.decode, c.ns);
  }

  /** A claim that is to stay is not as it should be, or one that is to go could not be deleted. */
  predicate Undisposed(t: seq<Step>, from: nat, c: Context, ref: Identity) {
    if c.mode == KeepWorld then Unkept(t, from, ref) else Stuck(t, from, ref)
  }

  /** World and seed claims: confirmed in place when they are kept, deleted when they are purged. */
  method Dispose(cluster: Cluster, c: Context, refs: seq<Identity>, before: Before) returns (ok: bool)
    requires forall r :: r in refs ==> r in AllRefs(c.plan)
    modifies cluster
    ensures old(cluster.trace) <= cluster.trace
    ensures Within(cluster.trace, |old(cluster.trace)|, c, cluster.digest)
    ensures ok ==> Disposed(cluster.trace, |old(cluster.trace)|, c, refs)
    ensures old(cluster.failed) ==> cluster.failed
    ensures !ok && !cluster.failed ==> exists r :: r in refs && Undisposed(cluster.trace, |old(cluster.trace)|, c, r)
  {
    ghost var from := |cluster.trace|;
    if c.mode == KeepWorld {
      ok := ConfirmKept(cluster, refs);
      DeletesWithin(cluster.trace, from, {}, c, cluster.digest);
    } else {
      ok := DeleteAll(cluster, refs, before);
      DeletesWithin(cluster.trace, from, (set r | r in refs), c, cluster.digest);
    }
  }

  method RemovePlain(cluster: Cluster, c: Context, refs: seq<Identity>, before: Before) returns (ok: bool)
    requires forall r :: r in refs ==> r in c.plan.resources + c.plan.secrets
    modifies cluster
    ensures old(cluster.trace) <= cluster.trace
    ensures Within(cluster.trace, |old(cluster.trace)|, c, cluster.digest)
    ensures ok ==> AllGone(cluster.trace, |old(cluster.trace)|, refs)
    ensures old(cluster.failed) ==> cluster.failed
    ensures !ok && !cluster.failed ==> exists r :: r in refs && Stuck(cluster.trace, |old(cluster.trace)|, r)
  {
    ghost var from := |cluster.trace|;
    ok := DeleteAll(cluster, refs, before);
    DeletesWithin(cluster.trace, from, (set r | r in refs), c, cluster.digest);
  }

  predicate ListedClear(t: seq<Step>, from: nat, c: Context) { SeenClear(t, from, c, false) }

  lemma ListedClearGrows(t: seq<Step>, u: seq<Step>, from: nat, c: Context)
    requires t <= u && ListedClear(t, from, c)
    ensures ListedClear(u, from, c)
  {
    hide Clear;
    var i :| from <= i < |t| && t[i].Listed?
      && Clear(t[i].workloads, c.plan, false, c.state, c.deleting, c.panelNamespace);
    assert u[i] == t[i];
  }

  /** What a removal saw that keeps it from finishing: an object that could not be deleted, a claim that is not
      as it should stay, a user of something planned, or a release. */
  predicate Obstacle(t: seq<Step>, from: nat, c: Context) {
    || (exists r :: r in c.plan.resources && Stuck(t, from, r))
    || (exists r :: r in c.plan.secrets && Stuck(t, from, r))
    || (exists r :: r in c.plan.worlds && Undisposed(t, from, c, r))
    || (exists r :: r in c.plan.seeds && Undisposed(t, from, c, r))
    || SeenUnclear(t, from, c, false)
    || exists i :: from <= i < |t| && t[i].LookedAtRelease? && t[i].newest.Some?
  }

  lemma ObstacleStays(t: seq<Step>, u: seq<Step>, from: nat, later: nat, c: Context)
    requires t <= u && from <= later && Obstacle(t, later, c)
    ensures Obstacle(u, from, c)
  {
    hide Stuck, Unkept, Clear;
    ReasonsStay(t, u, from, later);
    assert forall i :: 0 <= i < |t| ==> u[i] == t[i];
    if SeenUnclear(t, later, c, false) {
      var i :|
        later <= i < |t| && t[i].Listed? &&
        !Clear(t[i].workloads, c.plan, false, c.state, c.deleting, c.panelNamespace);
      assert u[i] == t[i];
    }
    if i :| later <= i < |t| && t[i].LookedAtRelease? && t[i].newest.Some? {
      assert u[i] == t[i];
    }
  }

  /** The uninstall, the planned resources it left, and the proof that their workloads are gone. */
  method RemoveWorkloads(cluster: Cluster, c: Context, held: Option<Stored>) returns (ok: bool)
    requires held.Some? ==> RecordedRelease(held.value, c.plan, cluster.digest, cluster.decode, c.ns)
    modifies cluster
    ensures old(cluster.trace) <= cluster.trace
    ensures Within(cluster.trace, |old(cluster.trace)|, c.(mode := KeepWorld), cluster.digest)
    ensures ok ==> AllGone(cluster.trace, |old(cluster.trace)|, c.plan.resources)
    ensures ok ==> ListedClear(cluster.trace, |old(cluster.trace)|, c)
    ensures old(cluster.failed) ==> cluster.failed
    ensures !ok && !cluster.failed ==> Obstacle(cluster.trace, |old(cluster.trace)|, c)
    ensures !cluster.failed && held.Some? ==>
      |old(cluster.trace)| < |cluster.trace| && cluster.trace[|old(cluster.trace)|].Uninstalled?
  {
    hide AllGone, Within, Clear, Quiet, RecordedRelease, Stuck, Unkept;
    ghost var from := |cluster.trace|;
    ghost var keep := c.(mode := KeepWorld);
    ok := UninstallHeld(cluster, c.(mode := KeepWorld), held);
    if !ok { return; }
    ghost var t := cluster.trace;
    ok := RemovePlain(cluster, c.(mode := KeepWorld), c.plan.resources, SkipAbsent);
    WithinGrows(t, cluster.trace, from, keep, cluster.digest);
    PhasesReach(cluster.trace, from, |t|);
    ReasonsStay(cluster.trace, cluster.trace, from, |t|);
    if !ok { return; }
    t := cluster.trace;
    ok := CheckReferences(cluster, c.plan, false, c.state, c.deleting, c.panelNamespace);
    QuietWithin(cluster.trace, |t|, keep, cluster.digest);
    WithinGrows(t, cluster.trace, from, keep, cluster.digest);
    PhasesGrow(t, cluster.trace, from);
    if cluster.trace != t {
      assert LastListing(cluster.trace) == cluster.trace[|t|];
      assert if ok then SeenClear(cluster.trace, from, c, false) else SeenUnclear(cluster.trace, from, c, false);
    }
  }

  /** The claims, the Secrets, and the last look at the release. */
  method RemoveRest(cluster: Cluster, c: Context) returns (ok: bool)
    modifies cluster
    ensures old(cluster.trace) <= cluster.trace
    ensures Within(cluster.trace, |old(cluster.trace)|, c, cluster.digest)
    ensures ok ==> AllGone(cluster.trace, |old(cluster.trace)|, c.plan.secrets)
    ensures ok ==> Disposed(cluster.trace, |old(cluster.trace)|, c, c.plan.worlds)
    ensures ok ==> Disposed(cluster.trace, |old(cluster.trace)|, c, c.plan.seeds)
    ensures ok ==> |old(cluster.trace)| < |cluster.trace| && cluster.trace[|cluster.trace|-1] == LookedAtRelease(None)
    ensures old(cluster.failed) ==> cluster.failed
    ensures !ok && !cluster.failed ==> Obstacle(cluster.trace, |old(cluster.trace)|, c)
  {
    hide AllGone, AllKept, Within, Quiet, Disposed, Stuck, Unkept, SeenUnclear;
    ghost var from := |cluster.trace|;
    ok := Dispose(cluster, c, c.plan.worlds, Read);
    if !ok { return; }
    ghost var t := cluster.trace;
    ok := Dispose(cluster, c, c.plan.seeds, Nothing);
    WithinGrows(t, cluster.trace, from, c, cluster.digest);
    PhasesGrow(t, cluster.trace, from);
    DisposedGrows(t, cluster.trace, from, c);
    PhasesReach(cluster.trace, from, |t|);
    DisposedReaches(cluster.trace, from, |t|, c);
    ReasonsStay(cluster.trace, cluster.trace, from, |t|);
    if !ok { return; }
    t := cluster.trace;
    ok := RemovePlain(cluster, c, c.plan.secrets, Nothing);
    WithinGrows(t, cluster.trace, from, c, cluster.digest);
    PhasesGrow(t, cluster.trace, from);
    DisposedGrows(t, cluster.trace, from, c);
    PhasesReach(cluster.trace, from, |t|);
    DisposedReaches(cluster.trace, from, |t|, c);
    ReasonsStay(cluster.trace, cluster.trace, from, |t|);
    if !ok { return; }
    t := cluster.trace;
    var remaining;
    ok, remaining := cluster.NewestRelease(c.ns, c.release);
    LookIsQuiet(t, cluster.trace);
    QuietWithin(cluster.trace, |t|, c, cluster.digest);
    WithinGrows(t, cluster.trace, from, c, cluster.digest);
    PhasesGrow(t, cluster.trace, from);
    DisposedGrows(t, cluster.trace, from, c);
    if ok { assert cluster.trace[|t|] == LookedAtRelease(remaining); }
    ok := ok && remaining.None?;
  }

  lemma LookIsQuiet(t: seq<Step>, u: seq<Step>)
    requires u == t || (|u| == |t| + 1 && t <= u && u[|t|].LookedAtRelease?)
    ensures Quiet(u, |t|)
  {
  }

  lemma NothingWithin(t: seq<Step>, c: Context, digest: string -> string)
    ensures Within(t, |t|, c, digest)
  {
  }

  lemma DisposedReaches(t: seq<Step>, from: nat, later: nat, c: Context)
    requires from <= later
    ensures forall refs :: Disposed(t, later, c, refs) ==> Disposed(t, from, c, refs)
  {
    PhasesReach(t, from, later);
  }

  lemma DisposedGrows(t: seq<Step>, u: seq<Step>, from: nat, c: Context)
    requires t <= u
    ensures forall refs :: Disposed(t, from, c, refs) ==> Disposed(u, from, c, refs)
  {
    PhasesGrow(t, u, from);
  }

  /** One attempt. Until `mid` it only looks; it goes on only if every planned object was seen absent or
      under its recorded UID and fit; from there on it deletes by recorded UID only, within the bounds of
      the mode, and reports success only for what it then saw finished. */
  method RemoveServer(cluster: Cluster, c: Context) returns (ok: bool, ghost mid: nat, ghost checked: Option<bool>)
    modifies cluster
    ensures old(cluster.trace) <= cluster.trace && |old(cluster.trace)| <= mid <= |cluster.trace|
    ensures Quiet(cluster.trace[..mid], |old(cluster.trace)|)
    ensures checked.Some? ==> AllFit(cluster.trace[..mid], |old(cluster.trace)|, c, checked.value)
    ensures checked.Some? ==> SeenClear(cluster.trace[..mid], |old(cluster.trace)|, c, checked.value)
    ensures checked.None? ==> Quiet(cluster.trace, |old(cluster.trace)|) && !ok
    ensures Within(cluster.trace, |old(cluster.trace)|, c, cluster.digest)
    ensures StorageLast(cluster.trace, mid, c)
    ensures ok ==> Finished(cluster.trace, mid, c)
    ensures old(cluster.failed) ==> cluster.failed
    ensures !ok && !cluster.failed ==>
      if checked.None? then Forbidden(cluster.trace, |old(cluster.trace)|, c, cluster.digest, cluster.decode)
      else Obstacle(cluster.trace, mid, c)
    ensures !cluster.failed && checked == Some(true) ==> mid < |cluster.trace| && cluster.trace[mid].Uninstalled?
  {
    hide AllGone, AllKept, AllFit, Within, Quiet, Clear, RecordedRelease, ListedClear, StorageLast, Disposed, Obstacle,
      Forbidden, SeenClear, SeenUnclear, SomeUnfit;
    ghost var from := |cluster.trace|;
    var held;
    ok, held := Check(cluster, c);
    QuietWithin(cluster.trace, from, c, cluster.digest);
    mid, checked := |cluster.trace|, None;
    ghost var checks := cluster.trace;
    assert cluster.trace[..mid] == cluster.trace;
    NothingWithin(cluster.trace, c.(mode := KeepWorld), cluster.digest);
    StorageLastStarts(cluster.trace, mid, c, cluster.digest);
    if !ok { return; }
    checked := Some(held.Some?);
    ok := RemoveWorkloads(cluster, c, held);
    StorageLastStarts(cluster.trace, mid, c, cluster.digest);
    KeepIsNarrower(cluster.trace, mid, c, cluster.digest);
    WithinGrows(checks, cluster.trace, from, c, cluster.digest);
    assert cluster.trace[..mid] == checks;
    if !ok { return; }
    ghost var t := cluster.trace;
    ok := RemoveRest(cluster, c);
    StorageLastGrows(t, cluster.trace, mid, c);
    WithinGrows(t, cluster.trace, from, c, cluster.digest);
    assert cluster.trace[..mid] == checks;
    if !ok && !cluster.failed { ObstacleStays(cluster.trace, cluster.trace, mid, |t|, c); }
    if ok {
      PhasesGrow(t, cluster.trace, mid);
      PhasesReach(cluster.trace, mid, |t|);
      ListedClearGrows(t, cluster.trace, mid, c);
      DisposedReaches(cluster.trace, mid, |t|, c);
    }
  }
}
