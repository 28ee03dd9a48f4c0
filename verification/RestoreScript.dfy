/** The restore script and its caller `restoreFiles`, working in place on a save root.
    Every method takes the number of writes after which it is killed. */
module RestoreScript {
  import opened Options
  import opened SortedNats
  import opened RestoreJournal

  datatype Outcome = Done | Killed | Unconfirmed | Refused

  /** The commit script's checks, in its order. */
  function Gate(d: Disk, existing: set<Path>, overwrite: bool, digest: Content -> Digest): (o: Outcome) {
    if d.stage.None? || d.stage.value.incoming.None? || d.stage.value.paths.None? || d.stage.value.checksums.None?
    then Refused
    else
      var s := d.stage.value;
      var sums := s.checksums.value;
      if sums == map[] || exists p <- sums ::
        p !in s.incoming.value || digest(s.incoming.value[p]) != sums[p] then Refused
      else if existing != {} && !overwrite then Unconfirmed
      else if exists p <- s.paths.value :: p !in s.incoming.value then Refused
      else if s.dirs then Refused
      else Done
  }

  /** Nothing is replaced unless everything staged is complete and checked, and an existing save may go. */
  lemma GatePasses(d: Disk, existing: set<Path>, overwrite: bool, digest: Content -> Digest)
    ensures Gate(d, existing, overwrite, digest) == Done <==>
      && d.stage.Some? && d.stage.value.incoming.Some? && d.stage.value.paths.Some? && d.stage.value.checksums.Some?
      && d.stage.value.checksums.value != map[] && !d.stage.value.dirs && (overwrite || existing == {})
      && (forall p <- d.stage.value.checksums.value ::
            p in d.stage.value.incoming.value
              && digest(d.stage.value.incoming.value[p]) == d.stage.value.checksums.value[p])
      && (forall p <- d.stage.value.paths.value :: p in d.stage.value.incoming.value)
    ensures Gate(d, existing, overwrite, digest) == Unconfirmed ==> !overwrite && existing != {}
  {
  }

  function Saves(root: map<Path, Content>, isSave: Path -> bool): set<Path> {
    set p | p in root && isSave(p)
  }

  /** The finished restore: every incoming path holds its new content; when a world is replaced
      the other save files are gone; everything else is untouched. */
  function Restored(world: map<Path, Content>, incoming: map<Path, Content>, replaceWorld: bool, isSave: Path -> bool)
    : map<Path, Content>
  {
    map p | p in world.Keys + incoming.Keys && (p in incoming || !(replaceWorld && isSave(p)))
      :: if p in incoming then incoming[p] else world[p]
  }

  lemma ReplacedIsRestored(world: map<Path, Content>, incoming: map<Path, Content>, replaceWorld: bool,
      isSave: Path -> bool)
    ensures Replaced(world, incoming, incoming.Keys + if replaceWorld then Saves(world, isSave) else {})
            == Restored(world, incoming, replaceWorld, isSave)
  {
  }

  lemma {:induction false} RunStep(d: Disk, ws: seq<Write>, n: nat)
    requires n < |ws|
    ensures Run(d, ws[..n+1]) == Apply(Run(d, ws[..n]), ws[n])
  {
    assert ws[..n+1] == ws[..n] + [ws[n]];
    RunAppend(d, ws[..n], [ws[n]]);
    var e := Run(d, ws[..n]);
    assert Run(e, [ws[n]]) == Run(Apply(e, ws[n]), []);
  }

  lemma {:induction false} BodyAt(targets: seq<Path>, i: nat)
    ensures |Body(targets)| == 3 * |targets|
    ensures i < |targets| ==> Body(targets)[3*i] == Note(targets[i])
    ensures i < |targets| ==> Body(targets)[3*i+1] == SetAside(targets[i])
    ensures i < |targets| ==> Body(targets)[3*i+2] == Install(targets[i])
    decreases |targets|
  {
    if targets != [] {
      BodyAt(targets[1..], if i == 0 then 0 else i - 1);
      if 0 < i < |targets| {
        assert Body(targets)[3*i] == Body(targets[1..])[3*(i-1)];
        assert Body(targets)[3*i+1] == Body(targets[1..])[3*(i-1)+1];
        assert Body(targets)[3*i+2] == Body(targets[1..])[3*(i-1)+2];
      }
    }
  }

  lemma RunNothing(d: Disk)
    ensures Run(d, []) == d
  {
  }

  lemma ScriptAt(targets: seq<Path>, i: nat)
    ensures var script := CommitScript(targets);
            && |script| == 3 + 3 * |targets| && script[0] == OpenDirs && script[1] == NewJournal
            && script[|script|-1] == MarkApplied
            && (i < |targets| ==> script[2+3*i] == Note(targets[i]) && script[2+3*i+1] == SetAside(targets[i]) &&
                                  script[2+3*i+2] == Install(targets[i]))
  {
    BodyAt(targets, i);
  }

  /** How one `rm -rf` of the stage ends: nothing left, or a remnant if it is killed. */
  type Removal = Disk -> Option<Stage>

  ghost predicate Sound(rm: Removal) {
    forall d: Disk :: d.stage.Some? ==> DeletionMayLeave(d, rm(d))
  }

  datatype Copy =
    | Complete
    | Partial(incoming: Option<map<Path, Content>>, paths: Option<seq<Path>>, checksums: Option<map<Path, Digest>>)

  /** Where `prepare`, the copy, `commit` and `finalize` of one restore go wrong, if they do. */
  datatype Faults = Faults(
    prepareKill: Option<nat>, prepareRm: Removal,
    copy: Copy, startedBefore: bool,
    commitKill: Option<nat>, startedAfter: bool,
    finalizeKill: Option<nat>, finalizeRm: Removal)

  ghost predicate NoFaults(f: Faults) {
    f.prepareKill.None? && f.copy.Complete? && !f.startedBefore && f.commitKill.None? && !f.startedAfter &&
    f.finalizeKill.None? && forall d :: f.prepareRm(d).None? && f.finalizeRm(d).None?
  }

  datatype File = File(path: Path, data: Content)

  /** A world save is renamed to the world the target server expects. */
  function Destination(p: Path, isWorld: Path -> bool, worldPath: Option<Path>): Path {
    if isWorld(p) && worldPath.Some? then worldPath.value else p
  }

  function Destinations(files: seq<File>, isWorld: Path -> bool, worldPath: Option<Path>): seq<Path> {
    seq(|files|, i requires 0 <= i < |files| => Destination(files[i].path, isWorld, worldPath))
  }

  /** Where a file belongs: a world save at the world path of the target, if there is one, anything else at
      its own path. */
  predicate Belongs(f: File, p: Path, isWorld: Path -> bool, worldPath: Option<Path>) {
    (isWorld(f.path) && worldPath.Some? ==> worldPath == Some(p)) &&
    (!isWorld(f.path) || worldPath.None? ==> f.path == p)
  }

  ghost predicate AskedFor(files: seq<File>, p: Path, isWorld: Path -> bool, worldPath: Option<Path>) {
    exists i :: 0 <= i < |files| && Belongs(files[i], p, isWorld, worldPath)
  }

  ghost predicate WithWorld(files: seq<File>, isWorld: Path -> bool) {
    exists i :: 0 <= i < |files| && isWorld(files[i].path)
  }

  ghost predicate TwoWorlds(files: seq<File>, isWorld: Path -> bool) {
    exists i, j :: 0 <= i < j < |files| && isWorld(files[i].path) && isWorld(files[j].path)
  }

  /** Two files belong at one place. */
  ghost predicate Clashing(files: seq<File>, isWorld: Path -> bool, worldPath: Option<Path>) {
    exists i, j, p ::
      0 <= i < j < |files| && Belongs(files[i], p, isWorld, worldPath) && Belongs(files[j], p, isWorld, worldPath)
  }

  ghost predicate ValidRequest(files: seq<File>, isWorld: Path -> bool, worldPath: Option<Path>) {
    files != [] && !TwoWorlds(files, isWorld) && !Clashing(files, isWorld, worldPath)
  }

  /** `m` is what a request asks for: each file's data where it belongs, nothing else. */
  ghost predicate Requested(m: map<Path, Content>, files: seq<File>, isWorld: Path -> bool, worldPath: Option<Path>) {
    && (forall p :: p in m <==> AskedFor(files, p, isWorld, worldPath))
    && forall i, p ::
      0 <= i < |files| && Belongs(files[i], p, isWorld, worldPath) ==> p in m && m[p] == files[i].data
  }

  /** What a restore from `before` to `after` owes to the one who asked for it: a world at the world path of the
      target, if there is one, and any other file at its own path; with a world among them no save file but
      the requested ones; everything else untouched. */
  ghost predicate Fulfilled(before: map<Path, Content>, after: map<Path, Content>, files: seq<File>,
                            isWorld: Path -> bool, worldPath: Option<Path>, isSave: Path -> bool)
  {
    && (forall i :: 0 <= i < |files| ==>
          if isWorld(files[i].path) && worldPath.Some?
          then worldPath.value in after && after[worldPath.value] == files[i].data
          else files[i].path in after && after[files[i].path] == files[i].data)
    && (forall p :: p in after && isSave(p) && (exists i :: 0 <= i < |files| && isWorld(files[i].path)) ==>
          exists i :: 0 <= i < |files| &&
                      p == if isWorld(files[i].path) && worldPath.Some? then worldPath.value else files[i].path)
    && (forall p :: p in before && !(isSave(p) && exists i :: 0 <= i < |files| && isWorld(files[i].path)) ==>
          || (p in after && after[p] == before[p])
          || exists i :: 0 <= i < |files| &&
                         p == if isWorld(files[i].path) && worldPath.Some? then worldPath.value else files[i].path)
    && (forall p :: p in after && p !in before ==>
          exists i :: 0 <= i < |files| &&
                      p == if isWorld(files[i].path) && worldPath.Some? then worldPath.value else files[i].path)
  }

  lemma AskedForIs(files: seq<File>, p: Path, isWorld: Path -> bool, worldPath: Option<Path>)
    ensures AskedFor(files, p, isWorld, worldPath) <==>
      exists i ::
        0 <= i < |files| && p == if isWorld(files[i].path) && worldPath.Some? then worldPath.value else files[i].path
  {
    if i :|
      0 <= i < |files| && p == if isWorld(files[i].path) && worldPath.Some? then worldPath.value else files[i].path
    {
      assert Belongs(files[i], p, isWorld, worldPath);
    }
  }

  lemma RequestedByFile(m: map<Path, Content>, files: seq<File>, isWorld: Path -> bool, worldPath: Option<Path>)
    requires Requested(m, files, isWorld, worldPath)
    ensures forall i :: 0 <= i < |files| ==>
      if isWorld(files[i].path) && worldPath.Some?
      then worldPath.value in m && m[worldPath.value] == files[i].data
      else files[i].path in m && m[files[i].path] == files[i].data
  {
    forall i | 0 <= i < |files|
      ensures if isWorld(files[i].path) && worldPath.Some?
        then worldPath.value in m && m[worldPath.value] == files[i].data
        else files[i].path in m && m[files[i].path] == files[i].data
    {
      var p := if isWorld(files[i].path) && worldPath.Some? then worldPath.value else files[i].path;
      assert Belongs(files[i], p, isWorld, worldPath);
    }
  }

  lemma RequestedIsAskedFor(m: map<Path, Content>, files: seq<File>, p: Path, isWorld: Path -> bool,
                            worldPath: Option<Path>)
    requires Requested(m, files, isWorld, worldPath)
    ensures p in m <==>
      exists i ::
        0 <= i < |files| && p == if isWorld(files[i].path) && worldPath.Some? then worldPath.value else files[i].path
  {
    hide AskedFor;
    AskedForIs(files, p, isWorld, worldPath);
  }

  lemma RestoredFulfils(world: map<Path, Content>, incoming: map<Path, Content>, files: seq<File>,
                        isWorld: Path -> bool, worldPath: Option<Path>, isSave: Path -> bool)
    requires Requested(incoming, files, isWorld, worldPath)
    ensures var after := Restored(world, incoming, WithWorld(files, isWorld), isSave);
      Fulfilled(world, after, files, isWorld, worldPath, isSave)
  {
    hide Requested;
    RequestedByFile(incoming, files, isWorld, worldPath);
    forall p ensures p in incoming <==>
      exists i ::
        0 <= i < |files| && p == if isWorld(files[i].path) && worldPath.Some? then worldPath.value else files[i].path
    {
      RequestedIsAskedFor(incoming, files, p, isWorld, worldPath);
    }
  }

  lemma BelongsThere(f: File, p: Path, isWorld: Path -> bool, worldPath: Option<Path>)
    ensures Belongs(f, p, isWorld, worldPath) <==> p == Destination(f.path, isWorld, worldPath)
  {
  }

  /** The first `n` files have been filled in, at distinct destinations. */
  ghost predicate Filled(m: map<Path, Content>, files: seq<File>, all: seq<Path>, n: nat)
    requires n <= |files| == |all|
  {
    && (forall p <- m :: exists j :: 0 <= j < n && all[j] == p)
    && (forall j :: 0 <= j < n ==> all[j] in m && m[all[j]] == files[j].data)
    && forall i, j :: 0 <= i < j < n ==> all[i] != all[j]
  }

  lemma FillOne(m: map<Path, Content>, files: seq<File>, all: seq<Path>, n: nat)
    requires n < |files| == |all| && Filled(m, files, all, n) && all[n] !in m
    ensures Filled(m[all[n] := files[n].data], files, all, n + 1)
  {
  }

  lemma NothingFilled(files: seq<File>, all: seq<Path>)
    requires |files| == |all|
    ensures Filled(map[], files, all, 0)
  {
  }

  lemma FilledFrom(m: map<Path, Content>, files: seq<File>, all: seq<Path>, n: nat, p: Path) returns (j: nat)
    requires n <= |files| == |all| && Filled(m, files, all, n) && p in m
    ensures j < n && all[j] == p
  {
    j :| 0 <= j < n && all[j] == p;
  }

  lemma FilledKeys(m: map<Path, Content>, files: seq<File>, all: seq<Path>)
    requires |files| == |all| && Filled(m, files, all, |files|)
    ensures m.Keys == Elements(all)
  {
  }

  lemma FilledAt(m: map<Path, Content>, files: seq<File>, p: Path, isWorld: Path -> bool, worldPath: Option<Path>)
    requires Filled(m, files, Destinations(files, isWorld, worldPath), |files|)
    ensures p in m <==> AskedFor(files, p, isWorld, worldPath)
    ensures forall i :: 0 <= i < |files| && Belongs(files[i], p, isWorld, worldPath) ==>
      p in m && m[p] == files[i].data
    ensures forall i, j :: 0 <= i < j < |files| && Belongs(files[i], p, isWorld, worldPath) ==>
      !Belongs(files[j], p, isWorld, worldPath)
  {
    hide Belongs;
    var all := Destinations(files, isWorld, worldPath);
    forall i | 0 <= i < |files| ensures Belongs(files[i], p, isWorld, worldPath) <==> p == all[i] {
      BelongsThere(files[i], p, isWorld, worldPath);
    }
    if p in m {
      var i :| 0 <= i < |files| && all[i] == p;
      assert Belongs(files[i], p, isWorld, worldPath);
    }
  }

  lemma FilledIsRequested(m: map<Path, Content>, files: seq<File>, isWorld: Path -> bool, worldPath: Option<Path>)
    requires Filled(m, files, Destinations(files, isWorld, worldPath), |files|)
    ensures Requested(m, files, isWorld, worldPath) && !Clashing(files, isWorld, worldPath)
  {
    hide Filled, AskedFor, Belongs;
    forall p
      ensures p in m <==> AskedFor(files, p, isWorld, worldPath)
      ensures forall i :: 0 <= i < |files| && Belongs(files[i], p, isWorld, worldPath) ==>
        p in m && m[p] == files[i].data
    {
      FilledAt(m, files, p, isWorld, worldPath);
    }
    if i, j, p :|
      0 <= i < j < |files| && Belongs(files[i], p, isWorld, worldPath) && Belongs(files[j], p, isWorld, worldPath)
    {
      FilledAt(m, files, p, isWorld, worldPath);
      assert false;
    }
  }

  lemma SamePlaceClashes(files: seq<File>, i: nat, j: nat, isWorld: Path -> bool, worldPath: Option<Path>)
    requires i < j < |files|
    requires Destination(files[i].path, isWorld, worldPath) == Destination(files[j].path, isWorld, worldPath)
    ensures Clashing(files, isWorld, worldPath)
  {
    var p := Destination(files[i].path, isWorld, worldPath);
    BelongsThere(files[i], p, isWorld, worldPath);
    BelongsThere(files[j], p, isWorld, worldPath);
  }

  class SaveRoot {
    var root: map<Path, Content>
    var stage: Option<Stage>
    const isSave: Path -> bool        // a .sav, .bak or .sav.backup below SaveGames
    const isWorld: Path -> bool       // a .sav directly in SaveGames
    const worldPath: Option<Path>     // where the target server expects its world save
    const digest: Content -> Digest

    constructor (root: map<Path, Content>, isSave: Path -> bool, isWorld: Path -> bool,
                 worldPath: Option<Path>, digest: Content -> Digest)
      ensures Now() == Disk(root, None)
      ensures this.isSave == isSave && this.isWorld == isWorld && this.worldPath == worldPath && this.digest == digest
    {
      this.root, this.stage := root, None;
      this.isSave, this.isWorld, this.worldPath, this.digest := isSave, isWorld, worldPath, digest;
    }

    ghost function Now(): Disk
      reads this
    {
      Disk(root, stage)
    }

    /** One elementary file operation. */
    method Do(w: Write)
      modifies this
      ensures Now() == Apply(old(Now()), w)
    {
      if w.MakeStage? {
        stage := Some(EMPTY_STAGE);
      } else if w.Remove? {
        stage := w.left;
      } else if stage.Some? {
        var s := stage.value;
        match w
        case Deliver(i, p, c) => stage := Some(s.(incoming := i, paths := p, checksums := c));
        case OpenDirs => stage := Some(s.(dirs := true));
        case NewJournal => stage := Some(s.(journal := Some([])));
        case Note(p) =>
          if s.journal.Some? { stage := Some(s.(journal := Some(s.journal.value + [p]))); }
        case SetAside(p) =>
          if p in root {
            stage := Some(s.(original := s.original[p := root[p]]));
            root := root - {p};
          } else {
            stage := Some(s.(added := s.added + {p}));
          }
        case Install(p) =>
          var arriving := Arriving(s);
          if p in arriving {
            root := root[p := arriving[p]];
            stage := Some(s.(incoming := Some(arriving - {p})));
          }
        case MarkApplied => stage := Some(s.(applied := true));
        case MarkCommitted => stage := Some(s.(committed := true));
        case PutBack(p) =>
          if p in s.original {
            root := root[p := s.original[p]];
            stage := Some(s.(original := s.original - {p}));
          } else if p in s.added {
            root := root - {p};
          }
      }
    }

    /** Performs write number `n` of a script begun on disk `d`. */
    method Perform(ghost d: Disk, ghost script: seq<Write>, ghost n: nat, w: Write)
      requires n < |script| && script[n] == w && Now() == Run(d, script[..n])
      modifies this
      ensures Now() == Run(d, script[..n+1])
    {
      RunStep(d, script, n);
      Do(w);
    }

    method Recover(kill: Option<nat>, left: Option<Stage>) returns (outcome: Outcome, used: nat)
      requires stage.Some? ==> Consistent(Now()) && DeletionMayLeave(Now(), left)
      modifies this
      ensures old(stage).None? ==> Now() == old(Now()) && outcome == Done && used == 0
      ensures old(stage).Some? ==>
        var script := RecoverScript(old(stage).value, left);
        && Now() == Run(old(Now()), Cut(script, kill))
        && (outcome == Done <==> Completes(script, kill) && left.None?)
        && outcome in {Done, Killed}
        && (kill.Some? ==> used <= kill.value) && (outcome == Done ==> used == |script|)
    {
      hide Run, Apply, DeletionMayLeave, Consistent;
      used := 0;
      if stage.None? { return Done, 0; }
      ghost var d := Now();
      RunNothing(d);
      ghost var script := RecoverScript(stage.value, left);
      if !stage.value.committed && stage.value.journal.Some? {
        var journal := stage.value.journal.value;
        var i := 0;
        while i < |journal|
          invariant 0 <= i <= |journal| && used == i && (kill.Some? ==> used <= kill.value)
          invariant Now() == Run(d, script[..i])
        {
          if kill == Some(used) { return Killed, used; }
          Perform(d, script, i, PutBack(journal[i]));
          used, i := used + 1, i + 1;
        }
      }
      if kill == Some(used) { return Killed, used; }
      Perform(d, script, used, Remove(left));
      assert script[..|script|] == script;
      used := used + 1;
      outcome := if left.None? then Done else Killed;
    }

    /** Whatever happens, the world is kept; when it returns Done the tree is that world and the
        stage is new and empty. */
    method Prepare(kill: Option<nat>, left: Option<Stage>) returns (outcome: Outcome)
      requires Consistent(Now())
      requires stage.Some? ==> DeletionMayLeave(Now(), left)
      modifies this
      ensures Consistent(Now()) && World(Now()) == old(World(Now()))
      ensures outcome in {Done, Killed}
      ensures outcome == Done ==> Now() == Disk(old(World(Now())), Some(EMPTY_STAGE))
      ensures kill.None? && (old(stage).Some? ==> left.None?) ==> outcome == Done
    {
      ghost var d := Now();
      if stage.Some? {
        RecoverRuns(d, left, kill);
      }
      var used;
      outcome, used := Recover(kill, left);
      if outcome != Done { return; }
      if kill == Some(used) { return Killed; }
      StepWorld(Now(), MakeStage);
      Do(MakeStage);
    }

    method ExistingSaves() returns (existing: seq<Path>)
      ensures Elements(existing) == Saves(root, isSave)
    {
      existing := [];
      var rest := root.Keys;
      while rest != {}
        invariant rest <= root.Keys
        invariant Elements(existing) == set p | p in root.Keys - rest && isSave(p)
      {
        var p :| p in rest;
        if isSave(p) {
          ElementsConcat(existing, [p]);
          existing := existing + [p];
        }
        rest := rest - {p};
      }
    }

    method ReplaceTargets(targets: seq<Path>, kill: Option<nat>) returns (outcome: Outcome)
      modifies this
      ensures Now() == Run(old(Now()), Cut(CommitScript(targets), kill))
      ensures outcome == if Completes(CommitScript(targets), kill) then Done else Killed
    {
      hide Run, Apply, Body;
      ghost var d, script := Now(), CommitScript(targets);
      ScriptAt(targets, 0);
      RunNothing(d);
      assert script[..0] == [];
      if kill == Some(0) { return Killed; }
      Perform(d, script, 0, OpenDirs);
      if kill == Some(1) { return Killed; }
      Perform(d, script, 1, NewJournal);
      var n, i := 2, 0;
      while i < |targets|
        invariant 0 <= i <= |targets| && n == 2 + 3 * i && (kill.Some? ==> n <= kill.value)
        invariant n < |script| && Now() == Run(d, script[..n])
      {
        ScriptAt(targets, i);
        if kill == Some(n) { return Killed; }
        Perform(d, script, n, Note(targets[i]));
        n := n + 1;
        if kill == Some(n) { return Killed; }
        Perform(d, script, n, SetAside(targets[i]));
        n := n + 1;
        if kill == Some(n) { return Killed; }
        Perform(d, script, n, Install(targets[i]));
        n := n + 1;
        i := i + 1;
      }
      if kill == Some(n) { return Killed; }
      Perform(d, script, n, MarkApplied);
      assert script[..n+1] == script;
      outcome := Done;
    }

    method Commit(overwrite: bool, replaceWorld: bool, kill: Option<nat>) returns (outcome: Outcome, targets: seq<Path>)
      requires stage.Some? ==> !stage.value.committed
      modifies this
      ensures var gate := Gate(old(Now()), Saves(old(root), isSave), overwrite, digest);
        && (gate != Done ==> outcome == gate && Now() == old(Now()))
        && (gate == Done ==>
            && Ascending(targets)
            && Elements(targets) == Elements(old(stage).value.paths.value) +
                 (if replaceWorld then Saves(old(root), isSave) else {})
            && Now() == Run(old(Now()), Cut(CommitScript(targets), kill))
            && outcome == if Completes(CommitScript(targets), kill) then Done else Killed)
    {
      targets := [];
      var existing := ExistingSaves();
      assert existing == [] <==> Saves(root, isSave) == {} by {
        if existing != [] { assert existing[0] in Elements(existing); }
      }
      if stage.None? || stage.value.incoming.None? || stage.value.paths.None? || stage.value.checksums.None? {
        return Refused, [];
      }
      var s := stage.value;
      var sums := s.checksums.value;
      if sums == map[] || exists p <- sums :: p !in s.incoming.value || digest(s.incoming.value[p]) != sums[p] {
        return Refused, [];
      }
      if existing != [] && !overwrite { return Unconfirmed, []; }
      if exists p <- s.paths.value :: p !in s.incoming.value { return Refused, []; }
      ElementsConcat(existing, s.paths.value);
      targets := SortUnique(if replaceWorld then existing + s.paths.value else s.paths.value);
      if s.dirs { return Refused, targets; }
      outcome := ReplaceTargets(targets, kill);
    }

    /** The marker is the only write that changes the world. */
    method Finalize(kill: Option<nat>, left: Option<Stage>) returns (outcome: Outcome, marked: bool)
      requires Consistent(Now())
      requires stage.Some? && stage.value.applied ==>
        var c := Apply(Now(), MarkCommitted); Remnant(left, c.stage.value) && DeletionMayLeave(c, left)
      modifies this
      ensures Consistent(Now()) && root == old(root)
      ensures marked <==> old(stage).Some? && old(stage).value.applied && kill != Some(0)
      ensures World(Now()) == if marked then old(root) else old(World(Now()))
      ensures outcome == Done <==> marked && kill != Some(1) && left.None?
      ensures outcome == Done ==> stage.None?
      ensures outcome in {Done, Killed, Refused}
      ensures outcome == Refused <==> !(old(stage).Some? && old(stage).value.applied)
    {
      marked := false;
      if stage.None? || !stage.value.applied { return Refused, false; }
      if kill == Some(0) { return Killed, false; }
      StepWorld(Now(), MarkCommitted);
      Do(MarkCommitted);
      marked := true;
      if kill == Some(1) { return Killed, true; }
      StepWorld(Now(), Remove(left));
      Do(Remove(left));
      outcome := if left.None? then Done else Killed;
    }

    method CountWorlds(files: seq<File>) returns (worlds: nat)
      ensures worlds > 0 <==> WithWorld(files, isWorld)
      ensures worlds > 1 <==> TwoWorlds(files, isWorld)
    {
      worlds := 0;
      for i := 0 to |files|
        invariant worlds > 0 <==> exists j :: 0 <= j < i && isWorld(files[j].path)
        invariant worlds > 1 <==> exists j, k :: 0 <= j < k < i && isWorld(files[j].path) && isWorld(files[k].path)
      {
        if isWorld(files[i].path) { worlds := worlds + 1; }
      }
    }

    /** Fills the staging directory: contents and checksums by destination, refusing duplicates. */
    method StageFiles(files: seq<File>)
      returns (ok: bool, paths: seq<Path>, incoming: map<Path, Content>, sums: map<Path, Digest>)
      ensures ok <==> !Clashing(files, isWorld, worldPath)
      ensures ok ==> Requested(incoming, files, isWorld, worldPath) && Elements(paths) == incoming.Keys
      ensures ok ==> sums.Keys == incoming.Keys && forall p <- sums :: sums[p] == digest(incoming[p])
    {
      hide Destination, Requested, Clashing, Filled;
      ok, paths, incoming, sums := true, [], map[], map[];
      ghost var all := Destinations(files, isWorld, worldPath);
      NothingFilled(files, all);
      for i := 0 to |files|
        invariant ok && paths == all[..i] && sums.Keys == incoming.Keys
        invariant Filled(incoming, files, all, i)
        invariant forall p <- sums :: sums[p] == digest(incoming[p])
      {
        var p := Destination(files[i].path, isWorld, worldPath);
        if p in incoming {
          ghost var j := FilledFrom(incoming, files, all, i, p);
          SamePlaceClashes(files, j, i, isWorld, worldPath);
          ok := false;
          return;
        }
        paths := paths + [p];
        FillOne(incoming, files, all, i);
        incoming := incoming[p := files[i].data];
        sums := sums[p := digest(files[i].data)];
      }
      assert all[..|files|] == all;
      FilledKeys(incoming, files, all);
      FilledIsRequested(incoming, files, isWorld, worldPath);
    }

    /** commit on a freshly prepared and filled stage. */
    method CommitStaged(ghost world: map<Path, Content>, ghost incoming: map<Path, Content>,
                        overwrite: bool, replaceWorld: bool, kill: Option<nat>) returns (outcome: Outcome)
      requires incoming != map[] && stage.Some?
      requires exists paths, sums ::
        && Now() == Disk(world, Some(
             EMPTY_STAGE.(incoming := Some(incoming), paths := Some(paths), checksums := Some(sums))))
        && Elements(paths) == incoming.Keys == sums.Keys && (forall p <- sums :: sums[p] == digest(incoming[p]))
      modifies this
      ensures Consistent(Now()) && World(Now()) == world
      ensures outcome == Unconfirmed <==> !overwrite && Saves(world, isSave) != {}
      ensures outcome in {Done, Killed, Unconfirmed} && (kill.None? ==> outcome != Killed)
      ensures outcome == Done ==> stage.Some? && stage.value.applied && !stage.value.committed
      ensures outcome == Done ==> root == Restored(world, incoming, replaceWorld, isSave)
    {
      ghost var staged := Now();
      ghost var paths := stage.value.paths.value;
      assert World(staged) == world by { UndoChangesNothingIffQuiet(world, stage.value); }
      assert forall p <- paths :: p in incoming by { assert forall p <- paths :: p in Elements(paths); }
      var targets;
      outcome, targets := Commit(overwrite, replaceWorld, kill);
      if outcome == Unconfirmed { return; }
      assert Distinct(targets);
      KilledCommitKeepsWorld(staged, targets, kill);
      CommitRuns(staged, targets);
      ReplacedIsRestored(world, incoming, replaceWorld, isSave);
    }

    /** Copies the staged files into the pod. */
    method CopyIn(incoming: Option<map<Path, Content>>, paths: Option<seq<Path>>, sums: Option<map<Path, Digest>>)
      requires stage == Some(EMPTY_STAGE)
      modifies this
      ensures Consistent(Now()) && World(Now()) == old(root)
      ensures Now() == Disk(old(root), Some(EMPTY_STAGE.(incoming := incoming, paths := paths, checksums := sums)))
    {
      Do(Deliver(incoming, paths, sums));
      UndoChangesNothingIffQuiet(root, stage.value);
    }

    method PrepareWith(kill: Option<nat>, rm: Removal) returns (outcome: Outcome)
      requires Consistent(Now()) && Sound(rm)
      modifies this
      ensures Consistent(Now()) && World(Now()) == old(World(Now()))
      ensures outcome == Done ==> stage == Some(EMPTY_STAGE) && root == old(World(Now()))
      ensures outcome in {Done, Killed} && (kill.None? && (forall d :: rm(d).None?) ==> outcome == Done)
    {
      var d := Disk(root, stage);
      var left := if stage.Some? then rm(d) else None;
      outcome := Prepare(kill, left);
    }

    method FinalizeWith(kill: Option<nat>, rm: Removal) returns (outcome: Outcome, marked: bool)
      requires Consistent(Now()) && Sound(rm) && stage.Some? && stage.value.applied
      modifies this
      ensures Consistent(Now())
      ensures World(Now()) == if marked then old(root) else old(World(Now()))
      ensures outcome == Done ==> marked && stage == None
      ensures outcome in {Done, Killed} && (kill.None? && (forall d :: rm(d).None?) ==> outcome == Done)
    {
      var d := Apply(Disk(root, stage), MarkCommitted);
      var left := rm(d);
      RemovalFits(d, left);
      outcome, marked := Finalize(kill, left);
    }

    method PrepareAndCopy(contents: map<Path, Content>, paths: seq<Path>, sums: map<Path, Digest>, faults: Faults)
      returns (outcome: Outcome)
      requires Consistent(Now()) && Sound(faults.prepareRm)
      modifies this
      ensures Consistent(Now()) && World(Now()) == old(World(Now())) && outcome in {Done, Killed, Refused}
      ensures outcome == Done ==> Now() == Disk(old(World(Now())),
        Some(EMPTY_STAGE.(incoming := Some(contents), paths := Some(paths), checksums := Some(sums))))
      ensures NoFaults(faults) ==> outcome == Done
    {
      outcome := PrepareWith(faults.prepareKill, faults.prepareRm);
      if outcome != Done { return; }
      if faults.copy.Partial? {
        CopyIn(faults.copy.incoming, faults.copy.paths, faults.copy.checksums);
        return Killed;
      }
      CopyIn(Some(contents), Some(paths), Some(sums));
      if faults.startedBefore { return Refused; }
    }

    /** prepare, copy, commit, finalize. */
    method Transact(contents: map<Path, Content>, paths: seq<Path>, sums: map<Path, Digest>,
                    overwrite: bool, replaceWorld: bool, faults: Faults) returns (outcome: Outcome, marked: bool)
      requires Consistent(Now()) && Sound(faults.prepareRm) && Sound(faults.finalizeRm)
      requires contents != map[] && Elements(paths) == contents.Keys == sums.Keys
      requires forall p <- sums :: sums[p] == digest(contents[p])
      modifies this
      ensures Consistent(Now())
      ensures World(Now()) ==
        if marked then Restored(old(World(Now())), contents, replaceWorld, isSave) else old(World(Now()))
      ensures outcome == Done ==> marked && stage == None
      ensures outcome == Unconfirmed ==> !overwrite && Saves(old(World(Now())), isSave) != {}
      ensures NoFaults(faults) ==>
        outcome == if Saves(old(World(Now())), isSave) != {} && !overwrite then Unconfirmed else Done
    {
      hide World, Consistent, Restored, Saves, Elements;
      marked := false;
      ghost var world := World(Now());
      outcome := PrepareAndCopy(contents, paths, sums, faults);
      if outcome != Done { return; }
      outcome := CommitStaged(world, contents, overwrite, replaceWorld, faults.commitKill);
      if outcome != Done { return; }
      if faults.startedAfter { return Refused, false; }
      outcome, marked := FinalizeWith(faults.finalizeKill, faults.finalizeRm);
    }

    /** One restore, from request to finalized, with every fault. The world is either what it was
        or exactly the finished restore, the latter just when the marker was written. */
    method RestoreFiles(files: seq<File>, overwrite: bool, faults: Faults)
      returns (outcome: Outcome, marked: bool, ghost incoming: map<Path, Content>)
      requires Consistent(Now()) && Sound(faults.prepareRm) && Sound(faults.finalizeRm)
      modifies this
      ensures Consistent(Now())
      ensures !ValidRequest(files, isWorld, worldPath) ==> outcome == Refused && Now() == old(Now()) && !marked
      ensures ValidRequest(files, isWorld, worldPath) ==> Requested(incoming, files, isWorld, worldPath)
      ensures World(Now()) ==
        if marked then Restored(old(World(Now())), incoming, WithWorld(files, isWorld), isSave) else old(World(Now()))
      ensures outcome == Done ==> marked && Now() == Disk(World(Now()), None)
      ensures outcome == Unconfirmed ==> !overwrite && Saves(old(World(Now())), isSave) != {}
      ensures NoFaults(faults) && ValidRequest(files, isWorld, worldPath) ==>
        outcome == if Saves(old(World(Now())), isSave) != {} && !overwrite then Unconfirmed else Done
      // A request with two worlds is refused and changes nothing; a finished restore is what was asked for.
      ensures (exists i, j :: 0 <= i < j < |files| && isWorld(files[i].path) && isWorld(files[j].path)) ==>
        outcome == Refused && Now() == old(Now())
      ensures marked ==> Fulfilled(old(World(Now())), World(Now()), files, isWorld, worldPath, isSave)
    {
      hide Fulfilled, Restored, World, Consistent, Sound, NoFaults;
      marked, incoming := false, map[];
      if files == [] { return Refused, false, incoming; }
      var worlds := CountWorlds(files);
      if worlds > 1 { return Refused, false, incoming; }
      var ok, paths, contents, sums := StageFiles(files);
      incoming := contents;
      if !ok { return Refused, false, incoming; }
      assert contents != map[] by {
        BelongsThere(files[0], Destination(files[0].path, isWorld, worldPath), isWorld, worldPath);
        assert Destination(files[0].path, isWorld, worldPath) in contents;
      }
      RestoredFulfils(World(Now()), contents, files, isWorld, worldPath, isSave);
      outcome, marked := Transact(contents, paths, sums, overwrite, worlds > 0, faults);
      if outcome == Done { WorldWithoutStage(Now()); }
    }
  }

  lemma WorldWithoutStage(d: Disk)
    requires d.stage.None?
    ensures World(d) == d.root
  {
  }

  lemma RemovalFits(d: Disk, left: Option<Stage>)
    requires d.stage.Some? && d.stage.value.committed && DeletionMayLeave(d, left)
    ensures Remnant(left, d.stage.value)
  {
  }
}
