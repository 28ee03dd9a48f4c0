/** The repository working in place on its staging and object directories, under the writer lock. */
module LocalRepository {
  import opened Options
  import opened SortedNats
  import opened BackupRepository
  import opened Units

  lemma {:induction false} TotalOfPart(part: map<Id, Directory>, all: map<Id, Directory>)
    requires part.Keys <= all.Keys && (forall id <- part :: part[id] == all[id]) && SizesValid(all)
    ensures Total(part) <= Total(all)
    decreases all.Keys - part.Keys
  {
    hide Total;
    if id :| id in all && id !in part {
      var more := part[id := all[id]];
      TotalAdd(part, id, all[id]);
      assert more.Keys == part.Keys + {id};
      TotalOfPart(more, all);
    } else {
      assert part == all;
    }
  }

  lemma AccountableSizes(objects: map<Id, Directory>, wellFormed: Published -> bool)
    requires Accountable(objects, wellFormed)
    ensures SizesValid(objects)
  {
    forall id | id in objects ensures BundleSize(objects[id]) >= 0 {
      assert ReadMetadata(objects[id], wellFormed).Some?;
    }
  }

  class Repository {
    var staging: map<Name, StageEntry>
    var objects: map<Id, Directory>
    const c: Config

    constructor (c: Config)
      ensures this.c == c && Now() == Repo(map[], map[])
    {
      this.c, staging, objects := c, map[], map[];
    }

    ghost function Now(): Repo
      reads this
    {
      Repo(staging, objects)
    }

    /** Adds up the bundle sizes, refusing an object it cannot account for and an int64 overflow. */
    method UsageLocked() returns (r: Option<int>)
      ensures r == Usage(objects, c.wellFormed)
    {
      var usage: int, rest := 0, objects.Keys;
      ghost var done: map<Id, Directory> := map[];
      while rest != {}
        invariant rest <= objects.Keys && done == objects - rest
        invariant Accountable(done, c.wellFormed) && usage == Total(done) && 0 <= usage <= MAX64
      {
        var id :| id in rest;
        var p := ReadMetadata(objects[id], c.wellFormed);
        if p.None? || p.value.manifest.id != id { return None; }
        if objects[id].bundle.None? || objects[id].bundle.value.size != p.value.bundle.size { return None; }
        TotalAdd(done, id, objects[id]);
        ghost var next := done[id := objects[id]];
        assert next == objects - (rest - {id});
        if p.value.bundle.size > MAX64 - usage {
          if Accountable(objects, c.wellFormed) {
            AccountableSizes(objects, c.wellFormed);
            TotalOfPart(next, objects);
          }
          return None;
        }
        usage := usage + p.value.bundle.size;
        done := next;
        rest := rest - {id};
      }
      assert done == objects;
      r := Some(usage);
    }

    /** Publishes a staged directory by renaming it, or removes it when it breaks a limit. */
    method PublishStage(n: Name, p: Published) returns (reply: Reply)
      requires n in staging && staging[n].Staged?
      modifies this`staging, this`objects
      ensures (Now(), reply) == old(PublishStaged(Now(), n, p, c))
    {
      var within := true;
      if c.limits.item > 0 {
        for i := 0 to |p.manifest.items|
          invariant within <==> forall j :: 0 <= j < i ==> p.manifest.items[j].size <= c.limits.item
        {
          if p.manifest.items[i].size > c.limits.item { within := false; }
        }
      }
      if !within || (c.limits.backup > 0 && p.bundle.size > c.limits.backup) {
        staging := staging - {n};
        return QuotaExceeded;
      }
      var usage := UsageLocked();
      if usage.None? { return Broken; }
      if c.limits.repository > 0
        && (usage.value > c.limits.repository || p.bundle.size > c.limits.repository - usage.value) {
        staging := staging - {n};
        return QuotaExceeded;
      }
      objects := objects[p.manifest.id := staging[n].dir];
      staging := staging - {n};
      reply := Done(p);
    }

    method Publish(r: Request) returns (reply: Reply)
      modifies this`staging, this`objects
      ensures (Now(), reply) == old(BackupRepository.Publish(Now(), r, c))
    {
      if !r.valid { return Invalid; }
      var id, n := r.manifest.id, c.identity(r.idem.key);
      if id in objects {
        var existing := ReadPublished(objects[id], c.wellFormed);
        if existing.None? { return Broken; }
        if !MatchPublication(existing.value, r.idem, id) { return Conflict; }
        return Done(existing.value);
      }
      if n in staging {
        if staging[n].Junk? { return Broken; }
        var staged := ReadPublished(staging[n].dir, c.wellFormed);
        if staged.None? { return Broken; }
        if !MatchPublication(staged.value, r.idem, id) { return Conflict; }
        reply := PublishStage(n, staged.value);
        return;
      }
      if !ValidRecord(Content(r), c.wellFormed) { return Invalid; }
      if !WithinItemLimits(Content(r), c.limits) { return QuotaExceeded; }
      staging := staging[n := Staged(Directory(Some(Content(r)), Some(r.bundle)))];
      reply := PublishStage(n, Content(r));
    }

    method StagingNames() returns (names: seq<Name>)
      ensures Ascending(names) && Elements(names) == staging.Keys
    {
      names := [];
      var rest := staging.Keys;
      while rest != {}
        invariant rest <= staging.Keys && Elements(names) == staging.Keys - rest
      {
        var n :| n in rest;
        ElementsConcat(names, [n]);
        names := names + [n];
        rest := rest - {n};
      }
      names := SortUnique(names);
    }

    /** One entry of the recovery loop. */
    method RecoverOne(n: Name) returns (ok: bool)
      requires n in staging
      modifies this`staging, this`objects
      ensures var step := old(RecoverEntry(Now(), n, c)); ok == step.Continue? && Now() == step.repo
    {
      if staging[n].Junk? {
        staging := staging - {n};
        return true;
      }
      var p := ReadPublished(staging[n].dir, c.wellFormed);
      if p.None? || c.identity(p.value.idem.key) != n {
        staging := staging - {n};
        return true;
      }
      if p.value.manifest.id in objects {
        var existing := ReadPublished(objects[p.value.manifest.id], c.wellFormed);
        if existing.None? || !MatchPublished(existing.value, p.value) { return false; }
        staging := staging - {n};
        return true;
      }
      var reply := PublishStage(n, p.value);
      ok := !reply.Broken?;
    }

    /** Works through a snapshot of the staging directory in name order. */
    method RecoverStaging() returns (ok: bool)
      modifies this`staging, this`objects
      ensures ok ==> staging == map[] && BackupRepository.Recover(Now(), c) == old(BackupRepository.Recover(Now(), c))
      ensures !ok ==> old(BackupRepository.Recover(Now(), c)) == Fail(Now())
    {
      hide RecoverEntry;
      var names := StagingNames();
      var i := 0;
      while i < |names|
        invariant 0 <= i <= |names| && Elements(names[i..]) == staging.Keys
        invariant BackupRepository.Recover(Now(), c) == old(BackupRepository.Recover(Now(), c))
      {
        var n := names[i];
        LeastOfAscending(names[i..]);
        NextNames(names, i);
        RecoverUnfolds(Now(), n, c);
        var recovered := RecoverOne(n);
        if !recovered { return false; }
        i := i + 1;
      }
      ok := true;
    }

    /** Reads every object, each under its own name. */
    method ListObjects() returns (r: Option<map<Id, Published>>)
      ensures r.Some? <==> AllPublished(objects, c.wellFormed)
      ensures r.Some? ==> r.value.Keys == objects.Keys
      ensures r.Some? ==> forall id <- objects :: ReadPublished(objects[id], c.wellFormed) == Some(r.value[id])
    {
      var found: map<Id, Published>, rest := map[], objects.Keys;
      while rest != {}
        invariant rest <= objects.Keys && found.Keys == objects.Keys - rest
        invariant forall id <- found ::
          ReadPublished(objects[id], c.wellFormed) == Some(found[id]) && found[id].manifest.id == id
      {
        var id :| id in rest;
        var p := ReadPublished(objects[id], c.wellFormed);
        if p.None? || p.value.manifest.id != id { return None; }
        found := found[id := p.value];
        rest := rest - {id};
      }
      r := Some(found);
    }

    method Recover() returns (r: Option<map<Id, Published>>)
      modifies this`staging, this`objects
      ensures Now() == old(BackupRepository.Recover(Now(), c)).repo
      ensures r.Some? <==> old(BackupRepository.Recover(Now(), c)).Continue?
      ensures r.Some? ==> r.value.Keys == objects.Keys
      ensures r.Some? ==> forall id <- objects :: ReadPublished(objects[id], c.wellFormed) == Some(r.value[id])
    {
      var ok := RecoverStaging();
      if !ok { return None; }
      r := ListObjects();
    }

    method Delete(id: Id)
      modifies this`objects
      ensures objects == old(objects) - {id}
    {
      objects := objects - {id};
    }
  }

  lemma RecoverUnfolds(s: Repo, n: Name, c: Config)
    requires s.staging != map[] && n == Least(s.staging.Keys)
    ensures var step := RecoverEntry(s, n, c);
      && BackupRepository.Recover(s, c) == (if step.Fail? then step else BackupRepository.Recover(step.repo, c))
      && (step.Continue? ==> step.repo.staging == s.staging - {n}) && (step.Fail? ==> step.repo == s)
  {
    EntryLeaves(s, n, c);
  }

  lemma LeastOfAscending(names: seq<Name>)
    requires names != [] && Ascending(names)
    ensures names[0] in Elements(names) && Least(Elements(names)) == names[0]
  {
    assert names[0] in Elements(names);
    var least := Least(Elements(names));
    var k :| 0 <= k < |names| && names[k] == least;
  }

  lemma NextNames(names: seq<Name>, i: nat)
    requires i < |names| && Ascending(names)
    ensures Elements(names[i+1..]) == Elements(names[i..]) - {names[i]}
  {
    assert names[i..] == [names[i]] + names[i+1..];
    ElementsConcat([names[i]], names[i+1..]);
  }
}
