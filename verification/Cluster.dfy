/** A cluster whose objects change under the caller between any two requests, and the record of what
    each request saw or did. */
module Cluster {
  import opened Options
  import opened Manifest
  import Decimals

  datatype Identity = Identity(kind: Kind, ns: string, name: string, uid: string)

  datatype Key = Key(kind: Kind, ns: string, name: string)

  function KeyOf(ref: Identity): Key { Key(ref.kind, ref.ns, ref.name) }

  datatype Object = Object(uid: string, terminating: bool, owners: nat, bound: bool,
                           releaseName: string, releaseNamespace: string, seedLabel: string, token: string,
                           claims: seq<string>, secrets: seq<string>)

  datatype Release = Release(revision: int, manifest: string, hooks: nat)
  datatype Stored = Stored(release: Release, storage: Identity)

  /** One Helm storage Secret as listed. */
  datatype Candidate =
    | Undecodable
    | Candidate(name: string, ns: string, version: int, manifest: string, hooks: nat, storage: Identity)

  datatype Owner = Owner(deployment: bool, uid: string)
  datatype Workload = Workload(replicaSet: bool, uid: string, owners: seq<Owner>,
                               claims: seq<string>, secrets: seq<string>, configs: seq<string>)

  datatype Step =
    | Looked(key: Key, found: Option<Object>)
    | LookedAtRelease(newest: Option<Stored>)
    | Listed(workloads: seq<Workload>)
    | Deleted(id: Identity)
    | Uninstalled(release: Release, removed: set<Identity>)

  predicate Retained(o: Object, ref: Identity) {
    o.uid == ref.uid && !o.terminating && o.owners == 0 && o.bound
  }

  predicate HelmOwned(o: Object, ns: string, release: string) {
    o.releaseName == release && o.releaseNamespace == ns
  }

  // ---- what a record shows from some point on ----

  predicate Quiet(t: seq<Step>, from: nat) {
    forall i :: from <= i < |t| ==> !t[i].Deleted? && !t[i].Uninstalled?
  }

  /** A recorded object that could not be deleted: the name was taken by another, the kind is not one that may
      be deleted, or it was still there after the delete. */
  predicate Stuck(t: seq<Step>, from: nat, ref: Identity) {
    exists i ::
      from <= i < |t| && t[i].Looked? && t[i].key == KeyOf(ref) && t[i].found.Some? &&
      (t[i].found.value.uid != ref.uid || ref.kind.OtherKind? || exists j :: from <= j < i && t[j] == Deleted(ref))
  }

  /** A recorded claim that was to stay was seen gone, replaced, terminating, owned or unbound. */
  predicate Unkept(t: seq<Step>, from: nat, ref: Identity) {
    exists i ::
      from <= i < |t| && t[i].Looked? && t[i].key == KeyOf(ref) &&
      (t[i].found.None? || !Retained(t[i].found.value, ref))
  }

  lemma ReasonsStay(t: seq<Step>, u: seq<Step>, from: nat, later: nat)
    requires t <= u && from <= later
    ensures forall ref :: Stuck(t, later, ref) ==> Stuck(u, from, ref)
    ensures forall ref :: Unkept(t, later, ref) ==> Unkept(u, from, ref)
  {
    assert forall i :: 0 <= i < |t| ==> u[i] == t[i];
    forall ref | Stuck(t, later, ref) ensures Stuck(u, from, ref) {
      var i :|
        later <= i < |t| && t[i].Looked? && t[i].key == KeyOf(ref) && t[i].found.Some? &&
        (t[i].found.value.uid != ref.uid || ref.kind.OtherKind? || exists j :: later <= j < i && t[j] == Deleted(ref));
      assert u[i] == t[i];
    }
    forall ref | Unkept(t, later, ref) ensures Unkept(u, from, ref) {
      var i :|
        later <= i < |t| && t[i].Looked? && t[i].key == KeyOf(ref) &&
        (t[i].found.None? || !Retained(t[i].found.value, ref));
      assert u[i] == t[i];
    }
  }

  predicate OnlyDeletes(t: seq<Step>, from: nat, allowed: set<Identity>) {
    forall i :: from <= i < |t| && t[i].Deleted? ==> t[i].id in allowed
  }

  predicate NoUninstall(t: seq<Step>, from: nat) {
    forall i :: from <= i < |t| ==> !t[i].Uninstalled?
  }

  predicate Gone(t: seq<Step>, from: nat, ref: Identity) {
    exists i :: from <= i < |t| && t[i] == Looked(KeyOf(ref), None)
  }

  predicate Shows(t: seq<Step>, from: nat, ref: Identity, o: Object) {
    exists i :: from <= i < |t| && t[i] == Looked(KeyOf(ref), Some(o))
  }

  ghost predicate Kept(t: seq<Step>, from: nat, ref: Identity) {
    exists o :: Shows(t, from, ref, o) && Retained(o, ref)
  }

  /** Seen absent or with its recorded UID. */
  ghost predicate Unreplaced(t: seq<Step>, from: nat, ref: Identity) {
    Gone(t, from, ref) || exists o :: Shows(t, from, ref, o) && o.uid == ref.uid
  }

  lemma RecordGrows(t: seq<Step>, u: seq<Step>, from: nat)
    requires t <= u
    ensures forall ref :: Gone(t, from, ref) ==> Gone(u, from, ref)
    ensures forall ref, o :: Shows(t, from, ref, o) ==> Shows(u, from, ref, o)
    ensures forall ref :: Kept(t, from, ref) ==> Kept(u, from, ref)
    ensures forall ref :: Unreplaced(t, from, ref) ==> Unreplaced(u, from, ref)
  {
    forall ref | Gone(t, from, ref) ensures Gone(u, from, ref) {
      var i :| from <= i < |t| && t[i] == Looked(KeyOf(ref), None);
      assert u[i] == t[i];
    }
    forall ref, o | Shows(t, from, ref, o) ensures Shows(u, from, ref, o) {
      var i :| from <= i < |t| && t[i] == Looked(KeyOf(ref), Some(o));
      assert u[i] == t[i];
    }
  }

  /** A later starting point shows less. */
  lemma EarlierShowsMore(t: seq<Step>, from: nat, later: nat)
    requires from <= later
    ensures forall ref :: Gone(t, later, ref) ==> Gone(t, from, ref)
    ensures forall ref, o :: Shows(t, later, ref, o) ==> Shows(t, from, ref, o)
    ensures forall ref :: Kept(t, later, ref) ==> Kept(t, from, ref)
    ensures forall ref :: Unreplaced(t, later, ref) ==> Unreplaced(t, from, ref)
  {
    forall ref, o | Shows(t, later, ref, o) ensures Shows(t, from, ref, o) {
      var i :| later <= i < |t| && t[i] == Looked(KeyOf(ref), Some(o));
    }
  }

  lemma Appended(t: seq<Step>, u: seq<Step>, from: nat, allowed: set<Identity>)
    requires t <= u && from <= |t|
    ensures OnlyDeletes(t, from, allowed) && OnlyDeletes(u, |t|, allowed) ==> OnlyDeletes(u, from, allowed)
    ensures Quiet(t, from) && Quiet(u, |t|) ==> Quiet(u, from)
    ensures NoUninstall(t, from) && NoUninstall(u, |t|) ==> NoUninstall(u, from)
  {
    assert forall i :: 0 <= i < |t| ==> u[i] == t[i];
  }

  // ---- the newest stored release ----

  function StorageName(name: string, version: nat): string {
    "sh.helm.release.v1." + name + ".v" + Decimals.Print(version)
  }

  predicate SoundCandidate(c: Candidate, ns: string, name: string) {
    && c.Candidate? && c.name == name && c.ns == ns && c.version >= 1
    && c.storage.uid != "" && c.storage.ns == ns && c.storage.name == StorageName(name, c.version)
  }

  predicate IsNewest(listed: seq<Candidate>, k: nat, stored: Stored)
    requires k < |listed| && forall i :: 0 <= i < |listed| ==> listed[i].Candidate?
  {
    && stored == Stored(Release(listed[k].version, listed[k].manifest, listed[k].hooks), listed[k].storage)
    && (forall i :: 0 <= i < |listed| ==> listed[i].version <= listed[k].version)
    && (forall i :: 0 <= i < k ==> listed[i].version < listed[k].version)
  }

  predicate AllSound(listed: seq<Candidate>, ns: string, name: string) {
    forall i :: 0 <= i < |listed| ==> SoundCandidate(listed[i], ns, name)
  }

  /** No entry is in doubt: each decodes to a revision of this release, stored under the name that Helm gives it. */
  lemma AllSoundIs(listed: seq<Candidate>, ns: string, name: string)
    ensures AllSound(listed, ns, name) <==> forall i :: 0 <= i < |listed| ==>
      && listed[i] != Undecodable && listed[i].name == name && listed[i].ns == ns && listed[i].version >= 1
      && listed[i].storage.uid != "" && listed[i].storage.ns == ns
      && listed[i].storage.name == "sh.helm.release.v1." + name + ".v" + Decimals.Print(listed[i].version)
  {
  }

  /** Refuses a listing with any doubtful entry; otherwise the first entry of the highest revision. */
  method PickNewest(listed: seq<Candidate>, ns: string, name: string) returns (ok: bool, newest: Option<Stored>)
    ensures ok <==> AllSound(listed, ns, name)
    ensures ok ==> (newest.None? <==> listed == [])
    ensures ok && newest.Some? ==> exists k :: 0 <= k < |listed| && IsNewest(listed, k, newest.value)
  {
    ok, newest := true, None;
    ghost var at: nat := 0;
    for n := 0 to |listed|
      invariant ok && AllSound(listed[..n], ns, name)
      invariant newest.None? <==> n == 0
      invariant newest.Some? ==> at < n && IsNewest(listed[..n], at, newest.value)
    {
      var c := listed[n];
      assert listed[..n+1] == listed[..n] + [c];
      if !SoundCandidate(c, ns, name) { return false, None; }
      if c.version > (if newest.None? then 0 else newest.value.release.revision) {
        newest := Some(Stored(Release(c.version, c.manifest, c.hooks), c.storage));
        at := n;
      }
    }
    assert listed[..|listed|] == listed;
  }

  /** What a sound listing yields: nothing if it is empty, else the first entry of the highest revision. */
  predicate IsPicked(listed: seq<Candidate>, ns: string, name: string, newest: Option<Stored>) {
    && AllSound(listed, ns, name) && (newest.None? <==> listed == [])
    && (newest.Some? ==> exists k :: 0 <= k < |listed| && IsNewest(listed, k, newest.value))
  }

  ghost predicate SomeListing(ns: string, name: string, newest: Option<Stored>) {
    exists listed :: IsPicked(listed, ns, name, newest)
  }

  lemma IsSomeListing(listed: seq<Candidate>, ns: string, name: string, newest: Option<Stored>)
    requires IsPicked(listed, ns, name, newest)
    ensures SomeListing(ns, name, newest)
  {
  }

  // ---- the requests ----

  /** The removable part of a checked release: what does not carry the keep policy. */
  function Removable(items: seq<Item>, ns: string): set<Key> {
    set it | it in items && it.policy != KeepPolicy :: Key(it.kind, ns, it.name)
  }

  predicate IsUninstall(s: Step, release: Release, removable: set<Key>) {
    s.Uninstalled? && s.release == release && forall id :: id in s.removed ==> KeyOf(id) in removable
  }

  class Cluster {
    var objects: map<Key, Object>
    ghost var trace: seq<Step>
    ghost var failed: bool                    // some request failed, or its answer was lost
    const decode: string -> seq<Document>     // the YAML decoder
    const digest: string -> string            // SHA-256 of a manifest

    constructor (decode: string -> seq<Document>, digest: string -> string)
      ensures trace == [] && !failed && this.decode == decode && this.digest == digest
    {
      objects, trace, failed := map[], [], false;
      this.decode, this.digest := decode, digest;
    }

    /** One object, read with `--ignore-not-found`. */
    method Get(key: Key) returns (ok: bool, found: Option<Object>)
      modifies this
      ensures ok ==> trace == old(trace) + [Looked(key, found)]
      ensures ok && found.Some? ==> found.value.uid != ""
      ensures !ok ==> trace == old(trace)
      ensures failed == (old(failed) || !ok)
    {
      objects := *;
      ok := *;
      found := if key in objects then Some(objects[key]) else None;
      if found.Some? && found.value.uid == "" { ok := false; }
      if ok { trace := trace + [Looked(key, found)]; }
      failed := failed || !ok;
    }

    method List() returns (ok: bool, workloads: seq<Workload>)
      modifies this
      ensures ok ==> trace == old(trace) + [Listed(workloads)]
      ensures !ok ==> trace == old(trace)
      ensures failed == (old(failed) || !ok)
    {
      objects := *;
      ok, workloads := *, *;
      if ok { trace := trace + [Listed(workloads)]; }
      failed := failed || !ok;
    }

    method NewestRelease(ns: string, name: string) returns (ok: bool, newest: Option<Stored>)
      modifies this
      ensures ok ==> trace == old(trace) + [LookedAtRelease(newest)]
      ensures ok && newest.Some? ==> newest.value.storage.uid != ""
      ensures ok ==> SomeListing(ns, name, newest)
      ensures !ok ==> trace == old(trace)
      ensures failed == (old(failed) || !ok)
    {
      objects := *;
      ok := *;
      newest := None;
      var listed: seq<Candidate> := *;
      if ok { ok, newest := PickNewest(listed, ns, name); }
      if ok { IsSomeListing(listed, ns, name, newest); }
      if ok { trace := trace + [LookedAtRelease(newest)]; }
      failed := failed || !ok;
    }

    /** A delete with a UID precondition: the server refuses it when another object has the name. The
        answer may be lost after the object went. */
    method DeleteRaw(ref: Identity) returns (ok: bool)
      modifies this
      ensures trace == old(trace) || trace == old(trace) + [Deleted(ref)]
      ensures ok ==> trace == old(trace) + [Deleted(ref)]
      ensures failed == (old(failed) || !ok)
    {
      objects := *;
      var taken: bool := *;
      var key := KeyOf(ref);
      if taken && key in objects && objects[key].uid == ref.uid {
        trace := trace + [Deleted(Identity(key.kind, key.ns, key.name, objects[key].uid))];
        var finished: bool := *;
        objects := if finished then objects - {key} else objects[key := objects[key].(terminating := true)];
        ok := *;
      } else {
        ok := false;
      }
      failed := failed || !ok;
    }

    /** `helm uninstall` of the release just checked removes some or all of its resources that do not
        carry the keep policy, whatever their UIDs are by now. */
    method Uninstall(release: Release, ns: string) returns (ok: bool)
      modifies this
      ensures old(trace) <= trace && |trace| == |old(trace)| + 1
      ensures IsUninstall(trace[|old(trace)|], release, Removable(Items(decode(release.manifest)), ns))
      ensures failed == (old(failed) || !ok)
    {
      objects := *;
      var reached: set<Key> := *;
      var gone := reached * Removable(Items(decode(release.manifest)), ns) * objects.Keys;
      ghost var removed := set k | k in gone :: Identity(k.kind, k.ns, k.name, objects[k].uid);
      objects := objects - gone;
      trace := trace + [Uninstalled(release, removed)];
      ok := *;
      failed := failed || !ok;
    }
  }
}
