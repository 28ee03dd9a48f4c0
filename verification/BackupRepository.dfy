/** The local backup repository as values: staged publication, crash recovery, quota.

    A directory holds at most a publication record and a bundle file; hashes are opaque. Removing a
    directory is not atomic: a kill may leave any part of it. Renaming one is. */
module BackupRepository {
  import opened Options
  import opened Units

  type Id = nat
  type Name = nat     // a staging entry's name; the order is the order of the names

  datatype Idempotency = Idempotency(key: nat, digest: nat)   // key: actor, operation and key together

  datatype Item = Item(size: int, rest: nat)
  datatype Manifest = Manifest(id: Id, items: seq<Item>, rest: nat)
  datatype File = File(size: int, sha: nat)
  datatype Published = Published(idem: Idempotency, manifest: Manifest, bundle: File)

  datatype Directory = Directory(record: Option<Published>, bundle: Option<File>)
  datatype StageEntry = Junk | Staged(dir: Directory)         // Junk: a plain file or a `.tmp-` directory

  datatype Repo = Repo(staging: map<Name, StageEntry>, objects: map<Id, Directory>)

  datatype Limits = Limits(repository: int, backup: int, item: int)   // 0 means unlimited

  /** The parts of record validation that are not about field syntax, plus the syntax as a parameter. */
  predicate ValidRecord(p: Published, wellFormed: Published -> bool) {
    wellFormed(p) && p.manifest.items != [] && 0 <= p.bundle.size <= MAX64 &&
    forall i :: 0 <= i < |p.manifest.items| ==> p.manifest.items[i].size >= 0
  }

  function ReadMetadata(d: Directory, wellFormed: Published -> bool): Option<Published> {
    if d.record.Some? && ValidRecord(d.record.value, wellFormed) then d.record else None
  }

  function ReadPublished(d: Directory, wellFormed: Published -> bool): Option<Published> {
    var p := ReadMetadata(d, wellFormed);
    if p.Some? && d.bundle == Some(p.value.bundle) then p else None
  }

  /** The same publication, for the same request. */
  predicate MatchPublication(existing: Published, idem: Idempotency, id: Id) {
    existing.manifest.id == id && existing.idem == idem
  }

  predicate MatchPublished(existing: Published, incoming: Published) {
    MatchPublication(existing, incoming.idem, incoming.manifest.id) &&
    existing.bundle == incoming.bundle && existing.manifest == incoming.manifest
  }

  // ---- space ----

  function BundleSize(d: Directory): int {
    if d.bundle.Some? then d.bundle.value.size else 0
  }

  /** The bytes of all bundles under `objects`. */
  ghost function Total(objects: map<Id, Directory>): int
    decreases |objects|
  {
    if objects == map[] then 0
    else
      var id :| id in objects;
      BundleSize(objects[id]) + Total(objects - {id})
  }

  lemma {:induction false} TotalWithout(objects: map<Id, Directory>, id: Id)
    requires id in objects
    ensures Total(objects) == BundleSize(objects[id]) + Total(objects - {id})
    decreases |objects|
  {
    var first :| first in objects && Total(objects) == BundleSize(objects[first]) + Total(objects - {first});
    if first != id {
      TotalWithout(objects - {first}, id);
      TotalWithout(objects - {id}, first);
      assert objects - {first} - {id} == objects - {id} - {first};
    }
  }

  lemma TotalAdd(objects: map<Id, Directory>, id: Id, d: Directory)
    requires id !in objects
    ensures Total(objects[id := d]) == Total(objects) + BundleSize(d)
  {
    TotalWithout(objects[id := d], id);
    assert objects[id := d] - {id} == objects;
  }

  predicate SizesValid(objects: map<Id, Directory>) {
    forall id <- objects :: BundleSize(objects[id]) >= 0
  }

  /** Every object has a valid record under its own name and a bundle of the recorded size. */
  predicate Accountable(objects: map<Id, Directory>, wellFormed: Published -> bool) {
    forall id <- objects ::
      var p := ReadMetadata(objects[id], wellFormed);
      p.Some? && p.value.manifest.id == id && objects[id].bundle.Some?
        && objects[id].bundle.value.size == p.value.bundle.size
  }

  /** What the repository uses; unknown if an object cannot be accounted for or the sum overflows. */
  ghost function Usage(objects: map<Id, Directory>, wellFormed: Published -> bool): Option<int> {
    if Accountable(objects, wellFormed) && Total(objects) <= MAX64 then Some(Total(objects)) else None
  }

  predicate WithinItemLimits(p: Published, limits: Limits) {
    (limits.item > 0 ==> forall i :: 0 <= i < |p.manifest.items| ==> p.manifest.items[i].size <= limits.item) &&
    (limits.backup > 0 ==> p.bundle.size <= limits.backup)
  }

  /** The quota test as written: a comparison, then a subtraction that cannot overflow. */
  predicate OverQuota(usage: int, size: int, limits: Limits) {
    limits.repository > 0 && (usage > limits.repository || size > limits.repository - usage)
  }

  /** It says exactly that the sum exceeds the limit, though the sum is never formed. */
  lemma QuotaTestIsExact(usage: int, size: int, limits: Limits)
    requires 0 <= usage <= MAX64 && 0 <= size <= MAX64 && 0 <= limits.repository <= MAX64
    ensures OverQuota(usage, size, limits) <==> limits.repository > 0 && usage + size > limits.repository
    ensures usage <= limits.repository ==> 0 <= limits.repository - usage <= MAX64
  {
  }

  // ---- recovery ----

  datatype Progress = Continue(repo: Repo) | Fail(repo: Repo)

  datatype Config = Config(limits: Limits, wellFormed: Published -> bool, identity: nat -> Name)

  function Drop(s: Repo, n: Name): Repo { s.(staging := s.staging - {n}) }

  datatype Reply = Done(publication: Published) | Conflict | QuotaExceeded | Broken | Invalid

  /** Publishing a staged directory: a rename, or its removal when it breaks a limit. */
  ghost function PublishStaged(s: Repo, n: Name, p: Published, c: Config): (Repo, Reply)
    requires n in s.staging && s.staging[n].Staged?
  {
    var usage := Usage(s.objects, c.wellFormed);
    if !WithinItemLimits(p, c.limits) then (Drop(s, n), QuotaExceeded)
    else if usage.None? then (s, Broken)
    else if OverQuota(usage.value, p.bundle.size, c.limits) then (Drop(s, n), QuotaExceeded)
    else (Repo(s.staging - {n}, s.objects[p.manifest.id := s.staging[n].dir]), Done(p))
  }

  /** What Recover does with one staging entry. */
  ghost function RecoverEntry(s: Repo, n: Name, c: Config): Progress
    requires n in s.staging
  {
    if s.staging[n].Junk? then Continue(Drop(s, n))
    else
      var p := ReadPublished(s.staging[n].dir, c.wellFormed);
      if p.None? || c.identity(p.value.idem.key) != n then Continue(Drop(s, n))
      else if p.value.manifest.id in s.objects then
        var existing := ReadPublished(s.objects[p.value.manifest.id], c.wellFormed);
        if existing.Some? && MatchPublished(existing.value, p.value) then Continue(Drop(s, n)) else Fail(s)
      else
        var (t, reply) := PublishStaged(s, n, p.value, c);
        if reply.Broken? then Fail(s) else Continue(t)
  }

  lemma {:induction false} LeastExists(s: set<Name>, n: Name)
    requires n in s
    ensures exists k :: k in s && forall m <- s :: k <= m
    decreases n
  {
    if m :| m in s && m < n { LeastExists(s, m); }
  }

  ghost function Least(s: set<Name>): (n: Name)
    requires s != {}
    ensures n in s && forall m <- s :: n <= m
  {
    var some :| some in s;
    LeastExists(s, some);
    var n :| n in s && forall m <- s :: n <= m;
    n
  }

  predicate AllPublished(objects: map<Id, Directory>, wellFormed: Published -> bool) {
    forall id <- objects ::
      var p := ReadPublished(objects[id], wellFormed);
      p.Some? && p.value.manifest.id == id
  }

  /** Recover takes the staging entries in the order of their names, then checks every object. */
  ghost function Recover(s: Repo, c: Config): Progress
    decreases |s.staging|
  {
    if s.staging == map[] then
      if AllPublished(s.objects, c.wellFormed) then Continue(s) else Fail(s)
    else
      var n := Least(s.staging.Keys);
      var step := RecoverEntry(s, n, c);
      if step.Fail? then step
      else
        EntryLeaves(s, n, c);
        Recover(step.repo, c)
  }

  lemma EntryLeaves(s: Repo, n: Name, c: Config)
    requires n in s.staging
    ensures RecoverEntry(s, n, c).Continue? ==>
      RecoverEntry(s, n, c).repo.staging == s.staging - {n} && |RecoverEntry(s, n, c).repo.staging| < |s.staging|
    ensures RecoverEntry(s, n, c).Fail? ==> RecoverEntry(s, n, c).repo == s
  {
    assert s.staging.Keys == (s.staging - {n}).Keys + {n};
  }

  // ---- kills ----

  /** What is left of a directory or a junk entry while it is being removed. */
  predicate Spoiled(left: StageEntry, e: StageEntry) {
    if e.Junk? then left.Junk?
    else left.Staged? && (left.dir.record == e.dir.record || left.dir.record.None?) &&
         (left.dir.bundle == e.dir.bundle || left.dir.bundle.None?)
  }

  /** `t` is where a Recover of `s` may be killed: after some entries, possibly inside a removal. */
  ghost predicate KilledAt(s: Repo, t: Repo, c: Config)
    decreases |s.staging|
  {
    t == s ||
    (s.staging != map[] &&
     var n := Least(s.staging.Keys);
     var step := RecoverEntry(s, n, c);
     EntryLeaves(s, n, c);
     step.Continue? &&
     ((step.repo.objects == s.objects && n in t.staging && Spoiled(t.staging[n], s.staging[n]) &&
       t == s.(staging := s.staging[n := t.staging[n]]))
      || KilledAt(step.repo, t, c)))
  }

  /** A kill inside a removal is invisible to the next Recover. */
  lemma SpoiledIsStillRemoved(s: Repo, t: Repo, n: Name, c: Config)
    requires n in s.staging && n in t.staging && Spoiled(t.staging[n], s.staging[n])
    requires t == s.(staging := s.staging[n := t.staging[n]])
    requires RecoverEntry(s, n, c).Continue? && RecoverEntry(s, n, c).repo.objects == s.objects
    ensures RecoverEntry(t, n, c) == RecoverEntry(s, n, c) == Continue(Drop(s, n))
  {
    assert t.staging - {n} == s.staging - {n};
    if t.staging[n] == s.staging[n] {
      assert t.staging == s.staging;
    }
    if s.staging[n].Staged? && ReadPublished(s.staging[n].dir, c.wellFormed).Some? {
      var id := ReadPublished(s.staging[n].dir, c.wellFormed).value.manifest.id;
      assert id in s.objects[id := s.staging[n].dir];
    }
  }

  /** Wherever Recover is killed, the next one ends exactly where the first would have: same outcome,
      same objects, same staging. By induction this holds for any number of kills. */
  lemma {:induction false} RecoverResumes(s: Repo, t: Repo, c: Config)
    requires KilledAt(s, t, c)
    ensures Recover(t, c) == Recover(s, c)
    decreases |s.staging|
  {
    if t != s {
      var n := Least(s.staging.Keys);
      EntryLeaves(s, n, c);
      var step := RecoverEntry(s, n, c);
      if step.repo.objects == s.objects && n in t.staging && Spoiled(t.staging[n], s.staging[n]) &&
         t == s.(staging := s.staging[n := t.staging[n]])
      {
        SpoiledIsStillRemoved(s, t, n, c);
        assert t.staging.Keys == s.staging.Keys;
        EntryLeaves(t, n, c);
      } else {
        RecoverResumes(step.repo, t, c);
      }
    }
  }

  /** A successful Recover empties the staging area, leaves only readable objects, never alters one
      that was there, and changes nothing when repeated. */
  lemma {:induction false} RecoverCleansUp(s: Repo, c: Config)
    ensures var r := Recover(s, c);
      && (forall id <- s.objects :: id in r.repo.objects && r.repo.objects[id] == s.objects[id])
      && (r.Continue? ==>
            r.repo.staging == map[] && AllPublished(r.repo.objects, c.wellFormed) && Recover(r.repo, c) == r)
    decreases |s.staging|
  {
    if s.staging != map[] {
      var n := Least(s.staging.Keys);
      EntryLeaves(s, n, c);
      var step := RecoverEntry(s, n, c);
      if step.Continue? { RecoverCleansUp(step.repo, c); }
    }
  }

  /** Recover takes another entry as if an entry of this name were not there. */
  lemma EntryIgnoresOthers(s: Repo, n: Name, left: StageEntry, m: Name, c: Config)
    requires n !in s.staging && m in s.staging
    ensures var t := s.(staging := s.staging[n := left]);
      var step := RecoverEntry(s, m, c);
      RecoverEntry(t, m, c) ==
        if step.Fail? then Fail(t) else Continue(step.repo.(staging := step.repo.staging[n := left]))
  {
    var t := s.(staging := s.staging[n := left]);
    assert t.staging[m] == s.staging[m];
    assert t.staging - {m} == (s.staging - {m})[n := left];
  }

  lemma LeastOfMore(names: set<Name>, n: Name)
    requires n !in names
    ensures var m := Least(names + {n}); m != n ==> m in names && m == Least(names)
  {
    var m := Least(names + {n});
    if m != n {
      assert Least(names) in names + {n};
    }
  }

  lemma RecoverBegins(s: Repo, n: Name, c: Config)
    requires n in s.staging && n == Least(s.staging.Keys)
    ensures var step := RecoverEntry(s, n, c); Recover(s, c) == if step.Fail? then step else Recover(step.repo, c)
  {
  }

  /** An entry that Recover can only discard: junk, an incomplete directory, or one under a foreign name. */
  predicate Unusable(left: StageEntry, n: Name, c: Config) {
    left.Junk? ||
    var p := ReadPublished(left.dir, c.wellFormed);
    p.None? || c.identity(p.value.idem.key) != n
  }

  /** Such an entry, the temporary directory of a killed Publish for one, leaves no trace. */
  lemma {:induction false} UnusableIsHarmless(s: Repo, n: Name, left: StageEntry, c: Config)
    requires n !in s.staging && Unusable(left, n, c)
    ensures var t := s.(staging := s.staging[n := left]);
      && Recover(t, c).repo.objects == Recover(s, c).repo.objects
      && Recover(t, c).Continue? == Recover(s, c).Continue?
    decreases |s.staging|
  {
    hide Unusable, RecoverEntry, Recover, Least;
    var t := s.(staging := s.staging[n := left]);
    assert t.staging.Keys == s.staging.Keys + {n};
    LeastOfMore(s.staging.Keys, n);
    var m := Least(t.staging.Keys);
    RecoverBegins(t, m, c);
    if m == n {
      UnusableIsDropped(s, n, left, c);
    } else {
      EntryLeaves(s, m, c);
      RecoverBegins(s, m, c);
      EntryIgnoresOthers(s, n, left, m, c);
      var step := RecoverEntry(s, m, c);
      if step.Continue? { UnusableIsHarmless(step.repo, n, left, c); }
    }
  }

  lemma UnusableIsDropped(s: Repo, n: Name, left: StageEntry, c: Config)
    requires n !in s.staging && Unusable(left, n, c)
    ensures RecoverEntry(s.(staging := s.staging[n := left]), n, c) == Continue(s)
  {
    assert s.staging[n := left] - {n} == s.staging;
  }

  /** An entry that no Recover can publish next to these objects: it is unusable, breaks a limit, or the
      space left is unknown. */
  ghost predicate Doomed(objects: map<Id, Directory>, left: StageEntry, n: Name, c: Config) {
    Unusable(left, n, c) ||
    var p := ReadPublished(left.dir, c.wellFormed).value;
    var usage := Usage(objects, c.wellFormed);
    !WithinItemLimits(p, c.limits) || usage.None? || OverQuota(usage.value, p.bundle.size, c.limits)
  }

  /** Space once too short, or unknown, stays so when an object is added. */
  lemma UsageGrows(objects: map<Id, Directory>, id: Id, d: Directory, wellFormed: Published -> bool)
    requires id !in objects
    ensures var less, more := Usage(objects, wellFormed), Usage(objects[id := d], wellFormed);
      more.Some? ==> less.Some? && less.value <= more.value
  {
    var more := objects[id := d];
    if Accountable(more, wellFormed) {
      assert ReadMetadata(more[id], wellFormed).Some?;
      forall other | other in objects ensures more[other] == objects[other] && other in more {}
      TotalAdd(objects, id, d);
    }
  }

  lemma DoomStays(s: Repo, m: Name, left: StageEntry, n: Name, c: Config)
    requires m in s.staging && RecoverEntry(s, m, c).Continue? && Doomed(s.objects, left, n, c)
    ensures Doomed(RecoverEntry(s, m, c).repo.objects, left, n, c)
  {
    hide Usage, WithinItemLimits;
    var more := RecoverEntry(s, m, c).repo.objects;
    if more != s.objects {
      var id := ReadPublished(s.staging[m].dir, c.wellFormed).value.manifest.id;
      assert more == s.objects[id := s.staging[m].dir];
      UsageGrows(s.objects, id, s.staging[m].dir, c.wellFormed);
    }
  }

  /** If Recover succeeds with such an entry, it ends where it would have ended without it. */
  lemma {:induction false} DoomedLeavesNothing(s: Repo, n: Name, left: StageEntry, c: Config)
    requires n !in s.staging && Doomed(s.objects, left, n, c)
    ensures var r := Recover(s.(staging := s.staging[n := left]), c); r.Continue? ==> r == Recover(s, c)
    decreases |s.staging|
  {
    hide Doomed, Usage, RecoverEntry, Recover, Least;
    var t := s.(staging := s.staging[n := left]);
    assert t.staging.Keys == s.staging.Keys + {n};
    LeastOfMore(s.staging.Keys, n);
    var m := Least(t.staging.Keys);
    RecoverBegins(t, m, c);
    if m == n {
      DoomedIsDropped(s, n, left, c);
    } else {
      EntryLeaves(s, m, c);
      RecoverBegins(s, m, c);
      EntryIgnoresOthers(s, n, left, m, c);
      var step := RecoverEntry(s, m, c);
      if step.Continue? {
        DoomStays(s, m, left, n, c);
        DoomedLeavesNothing(step.repo, n, left, c);
      }
    }
  }

  lemma DoomedIsDropped(s: Repo, n: Name, left: StageEntry, c: Config)
    requires n !in s.staging && Doomed(s.objects, left, n, c)
    ensures var step := RecoverEntry(s.(staging := s.staging[n := left]), n, c); step.Continue? ==> step.repo == s
  {
    hide Usage, WithinItemLimits;
    assert s.staging[n := left] - {n} == s.staging;
  }

  // ---- publication ----

  datatype Request = Request(valid: bool, idem: Idempotency, manifest: Manifest, bundle: File)

  function Content(r: Request): Published { Published(r.idem, r.manifest, r.bundle) }

  /** What staging a request yields, unless a limit or a validation stops it. */
  predicate Stageable(r: Request, c: Config) {
    ValidRecord(Content(r), c.wellFormed) && WithinItemLimits(Content(r), c.limits)
  }

  ghost function Publish(s: Repo, r: Request, c: Config): (Repo, Reply) {
    var id, n := r.manifest.id, c.identity(r.idem.key);
    if !r.valid then (s, Invalid)
    else if id in s.objects then
      var existing := ReadPublished(s.objects[id], c.wellFormed);
      (s, if existing.None? then Broken
          else if MatchPublication(existing.value, r.idem, id) then Done(existing.value) else Conflict)
    else if n in s.staging then
      var staged := if s.staging[n].Junk? then None else ReadPublished(s.staging[n].dir, c.wellFormed);
      if staged.None? then (s, Broken)
      else if !MatchPublication(staged.value, r.idem, id) then (s, Conflict)
      else PublishStaged(s, n, staged.value, c)
    else if !Stageable(r, c) then (s, if ValidRecord(Content(r), c.wellFormed) then QuotaExceeded else Invalid)
    else PublishStaged(StageOf(s, r, c), n, Content(r), c)
  }

  /** The repository once a request is completely staged. */
  function StageOf(s: Repo, r: Request, c: Config): Repo {
    s.(staging := s.staging[c.identity(r.idem.key) := Staged(Directory(Some(Content(r)), Some(r.bundle)))])
  }

  /** A Publish killed after staging is finished by repeating it, with the same reply and the same
      repository as an uninterrupted one. */
  lemma PublishResumes(s: Repo, r: Request, c: Config)
    requires r.valid && r.manifest.id !in s.objects && c.identity(r.idem.key) !in s.staging && Stageable(r, c)
    ensures Publish(StageOf(s, r, c), r, c) == Publish(s, r, c)
  {
  }

  /** The staging that a Publish works on: a leftover of an earlier one, or its own. */
  function Prepared(s: Repo, r: Request, c: Config): Repo {
    if c.identity(r.idem.key) in s.staging then s else StageOf(s, r, c)
  }

  /** A Publish that removes its rejected stage may be killed inside that removal, wherever its name comes
      in the order: a later Recover that succeeds ends where it would have after a complete removal. */
  lemma KilledRejection(s: Repo, r: Request, left: StageEntry, c: Config)
    requires Publish(s, r, c).1.QuotaExceeded? && (c.identity(r.idem.key) in s.staging || Stageable(r, c))
    requires Spoiled(left, Prepared(s, r, c).staging[c.identity(r.idem.key)])
    ensures var n := c.identity(r.idem.key);
      var killed := s.(staging := s.staging[n := left]);
      Recover(killed, c).Continue? ==> Recover(killed, c) == Recover(Publish(s, r, c).0, c)
  {
    hide Usage, WithinItemLimits, Recover;
    var n, u := c.identity(r.idem.key), Prepared(s, r, c);
    var rest := Publish(s, r, c).0;
    assert u.staging[n].Staged?;
    var p := if n in s.staging then ReadPublished(s.staging[n].dir, c.wellFormed).value else Content(r);
    assert Publish(s, r, c) == PublishStaged(u, n, p, c);
    assert rest.staging == s.staging - {n} && rest.objects == s.objects;
    assert rest.staging[n := left] == s.staging[n := left];
    DoomedLeavesNothing(rest, n, left, c);
  }

  /** Repeating a Publish that succeeded returns the same publication and changes nothing; the same
      manifest under another idempotency request is refused. */
  lemma PublishAgain(s: Repo, r: Request, again: Request, c: Config)
    requires Publish(s, r, c).1.Done? && again.valid && again.manifest.id == r.manifest.id
    ensures var (t, reply) := Publish(s, r, c);
      Publish(t, again, c) == (t, if again.idem == r.idem then reply else Conflict)
  {
    var (t, reply) := Publish(s, r, c);
    var n := c.identity(r.idem.key);
    if r.manifest.id !in s.objects {
      var u := if n in s.staging then s else StageOf(s, r, c);
      var p := if n in s.staging then ReadPublished(s.staging[n].dir, c.wellFormed).value else Content(r);
      assert ReadPublished(u.staging[n].dir, c.wellFormed) == Some(p);
      assert (t, reply) == PublishStaged(u, n, p, c);
      assert t.objects == u.objects[p.manifest.id := u.staging[n].dir];
    }
  }

  // ---- what recovery publishes ----

  /** The complete stages, each readable under its own identity. */
  function CompleteStages(staging: map<Name, StageEntry>, c: Config): map<Name, Directory> {
    map n | n in staging && staging[n].Staged? && ReadPublished(staging[n].dir, c.wellFormed).Some? :: staging[n].dir
  }

  /** All complete stages together fit into the repository. */
  ghost predicate RoomForAll(s: Repo, c: Config) {
    c.limits.repository > 0 ==> Total(s.objects) + Total(CompleteStages(s.staging, c)) <= c.limits.repository
  }

  /** Entry `n` is a complete stage of publication `p`, under its own identity and within the item limits. */
  predicate ReadyStage(s: Repo, n: Name, p: Published, c: Config) {
    && n in s.staging && s.staging[n].Staged? && ReadPublished(s.staging[n].dir, c.wellFormed) == Some(p)
    && c.identity(p.idem.key) == n && WithinItemLimits(p, c.limits)
  }

  lemma StagesWithout(s: Repo, n: Name, c: Config)
    requires n in s.staging
    ensures var all, rest := CompleteStages(s.staging, c), CompleteStages(s.staging - {n}, c);
      if n in all then Total(all) == all[n].bundle.value.size + Total(rest) else Total(all) == Total(rest)
    ensures n in CompleteStages(s.staging, c) ==> CompleteStages(s.staging, c)[n].bundle.Some?
  {
    var all, rest := CompleteStages(s.staging, c), CompleteStages(s.staging - {n}, c);
    assert rest == all - {n};
    if n in all { TotalWithout(all, n); }
    else { assert all - {n} == all; }
  }

  lemma StagesWeigh(staging: map<Name, StageEntry>, c: Config)
    ensures SizesValid(CompleteStages(staging, c)) && Total(CompleteStages(staging, c)) >= 0
  {
    TotalNonNegative(CompleteStages(staging, c));
  }

  /** A stage for which there is room is published, not dropped. */
  lemma ReadyIsPublished(s: Repo, n: Name, p: Published, c: Config)
    requires ReadyStage(s, n, p, c) && RoomForAll(s, c) && p.manifest.id !in s.objects
    requires RecoverEntry(s, n, c).Continue?
    ensures RecoverEntry(s, n, c).repo.objects == s.objects[p.manifest.id := s.staging[n].dir]
  {
    hide CompleteStages, Total, WithinItemLimits;
    StagesWithout(s, n, c);
    StagesWeigh(s.staging - {n}, c);
    assert n in CompleteStages(s.staging, c) by { StageIsComplete(s, n, p, c); }
    assert CompleteStages(s.staging, c)[n] == s.staging[n].dir by { StageIsComplete(s, n, p, c); }
  }

  lemma StageIsComplete(s: Repo, n: Name, p: Published, c: Config)
    requires ReadyStage(s, n, p, c)
    ensures n in CompleteStages(s.staging, c) && CompleteStages(s.staging, c)[n] == s.staging[n].dir
    ensures s.staging[n].dir.bundle == Some(p.bundle)
  {
  }

  /** Taking another entry keeps room for the rest. */
  lemma RoomStays(s: Repo, m: Name, c: Config)
    requires m in s.staging && RoomForAll(s, c) && RecoverEntry(s, m, c).Continue?
    ensures RoomForAll(RecoverEntry(s, m, c).repo, c)
  {
    hide CompleteStages, Total, WithinItemLimits, Usage;
    var t := RecoverEntry(s, m, c).repo;
    EntryLeaves(s, m, c);
    StagesWithout(s, m, c);
    StagesWeigh(s.staging, c);
    CompleteWeighs(s.staging, m, c);
    if t.objects != s.objects {
      var p := ReadPublished(s.staging[m].dir, c.wellFormed).value;
      assert t.objects == s.objects[p.manifest.id := s.staging[m].dir] && p.manifest.id !in s.objects;
      TotalAdd(s.objects, p.manifest.id, s.staging[m].dir);
    }
  }

  lemma CompleteWeighs(staging: map<Name, StageEntry>, m: Name, c: Config)
    requires m in staging
    ensures m in CompleteStages(staging, c) <==>
      staging[m].Staged? && ReadPublished(staging[m].dir, c.wellFormed).Some?
    ensures m in CompleteStages(staging, c) ==>
      CompleteStages(staging, c)[m] == staging[m].dir && staging[m].dir.bundle.Some? &&
      staging[m].dir.bundle.value.size >= 0
  {
  }

  /** An object under the ID of a complete stage that is not the very publication staged makes recovery fail. */
  lemma {:induction false} TakenFails(s: Repo, n: Name, p: Published, c: Config)
    requires ReadyStage(s, n, p, c) && p.manifest.id in s.objects
    requires ReadPublished(s.objects[p.manifest.id], c.wellFormed) != Some(p)
    ensures Recover(s, c).Fail?
    decreases |s.staging|
  {
    hide Recover, Least, ReadPublished, WithinItemLimits, PublishStaged;
    var m := Least(s.staging.Keys);
    RecoverBegins(s, m, c);
    EntryLeaves(s, m, c);
    var step := RecoverEntry(s, m, c);
    if m != n && step.Continue? {
      ObjectsStay(s, m, c);
      TakenFails(step.repo, n, p, c);
    }
  }

  lemma ObjectsStay(s: Repo, m: Name, c: Config)
    requires m in s.staging
    ensures var t := RecoverEntry(s, m, c).repo;
      forall id <- s.objects :: id in t.objects && t.objects[id] == s.objects[id]
  {
  }

  /** A successful Recover publishes every complete stage under its own identity, within the limits and with
      room for all, whose ID is free: that very directory is then the object. */
  lemma {:induction false} RecoverPublishes(s: Repo, n: Name, p: Published, c: Config)
    requires ReadyStage(s, n, p, c) && RoomForAll(s, c) && p.manifest.id !in s.objects && Recover(s, c).Continue?
    ensures var t := Recover(s, c).repo;
      p.manifest.id in t.objects && t.objects[p.manifest.id] == s.staging[n].dir
    decreases |s.staging|
  {
    hide Recover, Least, RecoverEntry, RoomForAll, WithinItemLimits;
    var m, id := Least(s.staging.Keys), p.manifest.id;
    RecoverBegins(s, m, c);
    EntryLeaves(s, m, c);
    var t := RecoverEntry(s, m, c).repo;
    if m == n {
      ReadyIsPublished(s, n, p, c);
      RecoverCleansUp(t, c);
    } else {
      RoomStays(s, m, c);
      if id in t.objects {
        NewObjectIsStage(s, m, id, c);
        TakenFails(t, n, p, c);
      } else {
        RecoverPublishes(t, n, p, c);
      }
    }
  }

  /** What recovery adds is a complete stage under its own identity. */
  lemma NewObjectIsStage(s: Repo, m: Name, id: Id, c: Config)
    requires m in s.staging && id !in s.objects && id in RecoverEntry(s, m, c).repo.objects
    ensures s.staging[m].Staged? && RecoverEntry(s, m, c).repo.objects[id] == s.staging[m].dir
    ensures var p := ReadPublished(s.staging[m].dir, c.wellFormed);
      p.Some? && p.value.manifest.id == id && ReadyStage(s, m, p.value, c)
  {
  }

  /** A stage that was published already, by a process killed before it removed the stage, is dropped. */
  lemma RepublishedIsDropped(s: Repo, n: Name, p: Published, c: Config)
    requires ReadyStage(s, n, p, c) && s.staging.Keys == {n} && AllPublished(s.objects, c.wellFormed)
    requires p.manifest.id in s.objects && ReadPublished(s.objects[p.manifest.id], c.wellFormed) == Some(p)
    ensures Recover(s, c) == Continue(Repo(map[], s.objects))
  {
    hide WithinItemLimits;
    assert n in s.staging.Keys && Least(s.staging.Keys) == n;
    EntryLeaves(s, n, c);
    assert s.staging - {n} == map[];
  }

  /** Recover adds nothing else. */
  lemma {:induction false} RecoverAddsOnlyStages(s: Repo, id: Id, c: Config) returns (n: Name)
    requires id in Recover(s, c).repo.objects && id !in s.objects
    ensures n in s.staging && s.staging[n].Staged? && Recover(s, c).repo.objects[id] == s.staging[n].dir
    ensures var p := ReadPublished(s.staging[n].dir, c.wellFormed);
      p.Some? && p.value.manifest.id == id && ReadyStage(s, n, p.value, c)
    decreases |s.staging|
  {
    hide Least, RecoverEntry, ReadPublished, WithinItemLimits;
    if s.staging != map[] {
      var m := Least(s.staging.Keys);
      EntryLeaves(s, m, c);
      var t := RecoverEntry(s, m, c).repo;
      if id in t.objects {
        NewObjectIsStage(s, m, id, c);
        n := m;
        RecoverCleansUp(t, c);
      } else {
        n := RecoverAddsOnlyStages(t, id, c);
      }
    }
  }

  /** Recovering what a Publish killed behind its staging left gives the objects it would have given. */
  lemma KilledPublishIsRecovered(s: Repo, r: Request, c: Config)
    requires s.staging == map[] && r.valid && r.manifest.id !in s.objects && Stageable(r, c)
    ensures var (t, reply) := Publish(s, r, c);
      && Recover(StageOf(s, r, c), c).repo.objects == t.objects
      && (Recover(StageOf(s, r, c), c).Continue? <==> !reply.Broken? && AllPublished(t.objects, c.wellFormed))
  {
    hide Usage, WithinItemLimits;
    var n, u := c.identity(r.idem.key), StageOf(s, r, c);
    assert u.staging.Keys == {n} && n in u.staging.Keys;
    assert Least(u.staging.Keys) == n;
    EntryLeaves(u, n, c);
    assert u.staging - {n} == map[];
  }

  /** A first Publish of a well-formed request: exactly the object it stands for is added when it keeps within
      the limits; otherwise nothing changes. */
  lemma PublishPublishes(s: Repo, r: Request, c: Config)
    requires r.valid && r.manifest.id !in s.objects && c.identity(r.idem.key) !in s.staging
    requires Usage(s.objects, c.wellFormed).Some?
    ensures var sound :=
        && c.wellFormed(Content(r)) && r.manifest.items != [] && 0 <= r.bundle.size <= 0x7fff_ffff_ffff_ffff
        && forall i :: 0 <= i < |r.manifest.items| ==> r.manifest.items[i].size >= 0;
      var fits :=
        && (c.limits.item > 0 ==> forall i :: 0 <= i < |r.manifest.items| ==> r.manifest.items[i].size <= c.limits.item)
        && (c.limits.backup > 0 ==> r.bundle.size <= c.limits.backup)
        && (c.limits.repository > 0 ==> Total(s.objects) + r.bundle.size <= c.limits.repository);
      Publish(s, r, c) ==
        if !sound then (s, Invalid)
        else if fits then
          (s.(objects := s.objects[r.manifest.id := Directory(Some(Content(r)), Some(r.bundle))]), Done(Content(r)))
        else (s, QuotaExceeded)
  {
    assert StageOf(s, r, c).staging - {c.identity(r.idem.key)} == s.staging;
  }

  // ---- quota over every run ----

  ghost predicate QuotaKept(s: Repo, limits: Limits) {
    SizesValid(s.objects) && (limits.repository > 0 ==> Total(s.objects) <= limits.repository)
  }

  lemma {:induction false} TotalNonNegative(objects: map<Id, Directory>)
    requires SizesValid(objects)
    ensures Total(objects) >= 0
    decreases |objects|
  {
    if objects != map[] {
      var id :| id in objects && Total(objects) == BundleSize(objects[id]) + Total(objects - {id});
      TotalNonNegative(objects - {id});
    }
  }

  lemma PublishStagedKeepsQuota(s: Repo, n: Name, p: Published, c: Config)
    requires QuotaKept(s, c.limits) && n in s.staging && s.staging[n].Staged?
    requires ReadPublished(s.staging[n].dir, c.wellFormed) == Some(p) && p.manifest.id !in s.objects
    ensures QuotaKept(PublishStaged(s, n, p, c).0, c.limits)
  {
    TotalAdd(s.objects, p.manifest.id, s.staging[n].dir);
  }

  lemma {:induction false} RecoverKeepsQuota(s: Repo, c: Config)
    requires QuotaKept(s, c.limits)
    ensures QuotaKept(Recover(s, c).repo, c.limits)
    decreases |s.staging|
  {
    if s.staging != map[] {
      var n := Least(s.staging.Keys);
      EntryLeaves(s, n, c);
      if s.staging[n].Staged? {
        var p := ReadPublished(s.staging[n].dir, c.wellFormed);
        if p.Some? && p.value.manifest.id !in s.objects { PublishStagedKeepsQuota(s, n, p.value, c); }
      }
      var step := RecoverEntry(s, n, c);
      if step.Continue? { RecoverKeepsQuota(step.repo, c); }
    }
  }

  lemma PublishKeepsQuota(s: Repo, r: Request, c: Config)
    requires QuotaKept(s, c.limits)
    ensures QuotaKept(Publish(s, r, c).0, c.limits)
    ensures forall id <- s.objects ::
      id in Publish(s, r, c).0.objects && Publish(s, r, c).0.objects[id] == s.objects[id]
  {
    var id, n := r.manifest.id, c.identity(r.idem.key);
    if r.valid && id !in s.objects {
      if n in s.staging {
        if s.staging[n].Staged? {
          var staged := ReadPublished(s.staging[n].dir, c.wellFormed);
          if staged.Some? && staged.value.manifest.id == id { PublishStagedKeepsQuota(s, n, staged.value, c); }
        }
      } else if Stageable(r, c) {
        PublishStagedKeepsQuota(StageOf(s, r, c), n, Content(r), c);
      }
    }
  }

  /** What is left of an object while Delete removes it. */
  predicate PartlyDeleted(s: Repo, t: Repo, id: Id) {
    && t.staging == s.staging && id in s.objects && t.objects.Keys <= s.objects.Keys
      && t.objects.Keys + {id} == s.objects.Keys
    && (forall other <- t.objects :: other != id ==> t.objects[other] == s.objects[other])
    && (id in t.objects ==> (t.objects[id].record == s.objects[id].record || t.objects[id].record.None?) &&
                            (t.objects[id].bundle == s.objects[id].bundle || t.objects[id].bundle.None?))
  }

  lemma DeleteKeepsQuota(s: Repo, t: Repo, id: Id, limits: Limits)
    requires QuotaKept(s, limits) && PartlyDeleted(s, t, id)
    ensures QuotaKept(t, limits)
  {
    TotalWithout(s.objects, id);
    assert t.objects - {id} == s.objects - {id};
    if id in t.objects {
      TotalWithout(t.objects, id);
    } else {
      assert t.objects == s.objects - {id};
    }
  }

  /** A kill never adds an object beyond those of a complete step. */
  lemma {:induction false} KillKeepsQuota(s: Repo, t: Repo, c: Config)
    requires QuotaKept(s, c.limits) && KilledAt(s, t, c)
    ensures QuotaKept(t, c.limits)
    decreases |s.staging|
  {
    if t != s {
      var n := Least(s.staging.Keys);
      EntryLeaves(s, n, c);
      var step := RecoverEntry(s, n, c);
      if s.staging[n].Staged? {
        var p := ReadPublished(s.staging[n].dir, c.wellFormed);
        if p.Some? && p.value.manifest.id !in s.objects { PublishStagedKeepsQuota(s, n, p.value, c); }
      }
      if KilledAt(step.repo, t, c) { KillKeepsQuota(step.repo, t, c); }
    }
  }

  /** One step of the repository's life: a Publish, a Recover or a Delete, complete or killed anywhere. A
      kill while a Publish stages its files leaves the objects alone. */
  ghost predicate Reaches(s: Repo, t: Repo, c: Config) {
    || (exists r :: t == Publish(s, r, c).0)
    || t == Recover(s, c).repo
    || KilledAt(s, t, c)
    || (exists id :: PartlyDeleted(s, t, id))
    || t.objects == s.objects
  }

  lemma StepKeepsQuota(s: Repo, t: Repo, c: Config)
    requires QuotaKept(s, c.limits) && Reaches(s, t, c)
    ensures QuotaKept(t, c.limits)
  {
    hide Publish, Recover, KilledAt, PartlyDeleted, Total;
    RecoverKeepsQuota(s, c);
    if r :| t == Publish(s, r, c).0 {
      PublishKeepsQuota(s, r, c);
    } else if KilledAt(s, t, c) {
      KillKeepsQuota(s, t, c);
    } else if id :| PartlyDeleted(s, t, id) {
      DeleteKeepsQuota(s, t, id, c.limits);
    }
  }

  /** Over every run that begins empty the bundles never exceed the repository limit. */
  lemma {:induction false} RunKeepsQuota(run: seq<Repo>, c: Config, i: nat)
    requires 0 <= c.limits.repository && i < |run| && run[0].objects == map[]
    requires forall j, k :: 0 <= j < k < |run| && k == j + 1 ==> Reaches(run[j], run[k], c)
    ensures QuotaKept(run[i], c.limits)
    decreases i
  {
    hide Reaches;
    if i > 0 {
      RunKeepsQuota(run, c, i - 1);
      StepKeepsQuota(run[i-1], run[i], c);
    }
  }
}
