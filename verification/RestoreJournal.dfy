/** The world-restore undo journal, as values.

    A disk is the save tree plus the staging directory `.c2-restore`. Every elementary
    file operation of the restore script is one `Write`; a process may be killed between
    any two of them, so a killed script is a prefix of the script. `World` is the save
    tree that the next completed `prepare` will leave behind. The lemmas show that it
    changes at exactly one write, the creation of the `committed` marker. */
module RestoreJournal {
  import opened Options
  import opened SortedNats

  // Paths are opaque keys; their numeric order stands for the byte order of the names.
  type Path = nat
  type Content = string
  type Digest = string

  datatype Stage = Stage(
    incoming: Option<map<Path, Content>>,
    paths: Option<seq<Path>>,
    checksums: Option<map<Path, Digest>>,
    dirs: bool,                      // original/ and new/ have been made
    original: map<Path, Content>,      // original/: contents moved out of the way
    added: set<Path>,                  // new/: markers for paths that did not exist
    journal: Option<seq<Path>>,
    applied: bool,
    committed: bool)

  datatype Disk = Disk(root: map<Path, Content>, stage: Option<Stage>)

  const EMPTY_STAGE := Stage(None, None, None, false, map[], {}, None, false, false)

  function Journaled(s: Stage): set<Path> {
    if s.journal.None? then {} else set p | p in s.journal.value
  }

  function Arriving(s: Stage): map<Path, Content> {
    if s.incoming.None? then map[] else s.incoming.value
  }

  /** The tree a complete replay of the journal restores, in closed form. */
  function Undone(root: map<Path, Content>, s: Stage): map<Path, Content> {
    var j := Journaled(s);
    map p | p in root.Keys + s.original.Keys &&
            (if p in j && p in s.original then true else p in root && !(p in j && p in s.added))
      :: if p in j && p in s.original then s.original[p] else root[p]
  }

  /** The tree the next completed prepare leaves. */
  function World(d: Disk): map<Path, Content> {
    if d.stage.None? || d.stage.value.committed then d.root else Undone(d.root, d.stage.value)
  }

  predicate Consistent(d: Disk) {
    d.stage.Some? ==>
      var s := d.stage.value;
      s.original.Keys !! s.added && (!s.dirs ==> s.original == map[] && s.added == {})
  }

  datatype Write =
    | MakeStage
    | Deliver(incoming: Option<map<Path, Content>>, paths: Option<seq<Path>>, checksums: Option<map<Path, Digest>>)
    | OpenDirs
    | NewJournal
    | Note(p: Path)
    | SetAside(p: Path)
    | Install(p: Path)
    | MarkApplied
    | MarkCommitted
    | PutBack(p: Path)
    | Remove(left: Option<Stage>)

  /** The effect of one write. Moves overwrite and are atomic. */
  function Apply(d: Disk, w: Write): Disk {
    if w.MakeStage? then d.(stage := Some(EMPTY_STAGE))
    else if w.Remove? then d.(stage := w.left)
    else if d.stage.None? then d
    else
      var s := d.stage.value;
      match w
      case Deliver(i, p, c) => d.(stage := Some(s.(incoming := i, paths := p, checksums := c)))
      case OpenDirs => d.(stage := Some(s.(dirs := true)))
      case NewJournal => d.(stage := Some(s.(journal := Some([]))))
      case Note(p) =>
        if s.journal.None? then d else d.(stage := Some(s.(journal := Some(s.journal.value + [p]))))
      case SetAside(p) =>
        if p in d.root then Disk(d.root - {p}, Some(s.(original := s.original[p := d.root[p]])))
        else d.(stage := Some(s.(added := s.added + {p})))
      case Install(p) =>
        if p in Arriving(s) then
          Disk(d.root[p := Arriving(s)[p]], Some(s.(incoming := Some(Arriving(s) - {p}))))
        else d
      case MarkApplied => d.(stage := Some(s.(applied := true)))
      case MarkCommitted => d.(stage := Some(s.(committed := true)))
      case PutBack(p) =>
        if p in s.original then Disk(d.root[p := s.original[p]], Some(s.(original := s.original - {p})))
        else if p in s.added then d.(root := d.root - {p})
        else d
  }

  function Run(d: Disk, ws: seq<Write>): Disk
    decreases |ws|
  {
    if ws == [] then d else Run(Apply(d, ws[0]), ws[1..])
  }

  /** What may remain of a stage while `rm -rf` is deleting it, in any order. */
  predicate Remnant(left: Option<Stage>, s: Stage) {
    left.Some? ==>
      var l := left.value;
      && l.original.Keys <= s.original.Keys && (forall p <- l.original :: l.original[p] == s.original[p])
      && l.added <= s.added
      && (l.journal == s.journal || l.journal.None?)
      && (l.dirs ==> s.dirs) && (!l.dirs ==> l.original == map[] && l.added == {})
      && (l.committed ==> s.committed)
      && (l.applied ==> s.applied)
  }

  /** Replaying the journal over `root` would change nothing. */
  predicate Quiet(root: map<Path, Content>, s: Stage) {
    forall p <- Journaled(s) ::
      && (p in s.original ==> p in root && root[p] == s.original[p])
      && (p in s.added && p !in s.original ==> p !in root)
  }

  /** No journaled path has a record left to act on. */
  predicate RolledBack(root: map<Path, Content>, s: Stage) {
    forall p <- Journaled(s) :: p !in s.original && (p in s.added ==> p !in root)
  }

  /** When each write may happen: what the guards of the script establish before it. */
  predicate Legal(d: Disk, w: Write) {
    match w
    case MakeStage => d.stage.None?
    case Deliver(_, _, _) => d.stage.Some?
    case OpenDirs => d.stage.Some? && !d.stage.value.committed && !d.stage.value.dirs
    case NewJournal =>
      d.stage.Some? && !d.stage.value.committed && d.stage.value.dirs &&
      d.stage.value.original == map[] && d.stage.value.added == {}
    case Note(p) =>
      d.stage.Some? && !d.stage.value.committed && d.stage.value.journal.Some? &&
      p !in d.stage.value.original && p !in d.stage.value.added
    case SetAside(p) =>
      d.stage.Some? && !d.stage.value.committed && d.stage.value.dirs && p in Journaled(d.stage.value) &&
      p !in d.stage.value.original && p !in d.stage.value.added
    case Install(p) =>
      d.stage.Some? && !d.stage.value.committed && p in Journaled(d.stage.value) &&
      (p in d.stage.value.original || p in d.stage.value.added)
    case MarkApplied => d.stage.Some? && !d.stage.value.committed
    case MarkCommitted => d.stage.Some? && d.stage.value.applied
    case PutBack(p) => d.stage.Some? && !d.stage.value.committed && p in Journaled(d.stage.value)
    case Remove(left) =>
      d.stage.Some? && Remnant(left, d.stage.value) &&
      if d.stage.value.committed then
        // Assumption: removing a committed stage does not expose journal records before the marker goes.
        left.None? || left.value.committed || Quiet(d.root, left.value)
      else RolledBack(d.root, d.stage.value)
  }

  predicate LegalRun(d: Disk, ws: seq<Write>)
    decreases |ws|
  {
    ws == [] || (Legal(d, ws[0]) && LegalRun(Apply(d, ws[0]), ws[1..]))
  }

  /** Undoing is harmless exactly when no surviving record contradicts the tree. So if `rm -rf`
      deletes the marker of a committed stage first, the finished restore survives the next
      prepare if and only if the remnant is quiet. */
  lemma UndoChangesNothingIffQuiet(root: map<Path, Content>, s: Stage)
    ensures Undone(root, s) == root <==> Quiet(root, s)
  {
    if Quiet(root, s) {
      assert Undone(root, s).Keys == root.Keys;
    }
    if Undone(root, s) == root {
      forall p | p in Journaled(s)
        ensures p in s.original ==> p in root && root[p] == s.original[p]
        ensures p in s.added && p !in s.original ==> p !in root
      {
        assert p in Undone(root, s) <==> p in root;
        if p in s.original { assert Undone(root, s)[p] == s.original[p]; }
      }
    }
  }

  /** Two disks whose stages would be undone alike, path by path, have the same world. */
  lemma SameUndone(r1: map<Path, Content>, s1: Stage, r2: map<Path, Content>, s2: Stage)
    requires forall p :: (p in Undone(r1, s1) <==> p in Undone(r2, s2)) &&
                         (p in Undone(r1, s1) && p in Undone(r2, s2) ==> Undone(r1, s1)[p] == Undone(r2, s2)[p])
    ensures Undone(r1, s1) == Undone(r2, s2)
  {
    assert forall p :: p in Undone(r1, s1).Keys <==> p in Undone(r2, s2).Keys;
  }

  lemma RemoveKeepsWorld(d: Disk, left: Option<Stage>)
    requires Consistent(d) && Legal(d, Remove(left))
    ensures Consistent(Apply(d, Remove(left)))
    ensures World(Apply(d, Remove(left))) == World(d)
  {
    var s := d.stage.value;
    if !s.committed {
      UndoChangesNothingIffQuiet(d.root, s);
    }
    if left.Some? && !left.value.committed {
      UndoChangesNothingIffQuiet(d.root, left.value);
    }
  }

  lemma NoteKeepsWorld(d: Disk, p: Path)
    requires Consistent(d) && Legal(d, Note(p))
    ensures Consistent(Apply(d, Note(p))) && World(Apply(d, Note(p))) == World(d)
  {
    var s, t := d.stage.value, Apply(d, Note(p)).stage.value;
    assert forall q :: q in t.journal.value <==> q in s.journal.value || q == p;
    assert Journaled(t) == Journaled(s) + {p};
    SameUndone(d.root, s, d.root, t);
  }

  lemma SetAsideKeepsWorld(d: Disk, p: Path)
    requires Consistent(d) && Legal(d, SetAside(p))
    ensures Consistent(Apply(d, SetAside(p))) && World(Apply(d, SetAside(p))) == World(d)
  {
    var e := Apply(d, SetAside(p));
    assert Journaled(e.stage.value) == Journaled(d.stage.value);
    SameUndone(d.root, d.stage.value, e.root, e.stage.value);
  }

  lemma InstallKeepsWorld(d: Disk, p: Path)
    requires Consistent(d) && Legal(d, Install(p))
    ensures Consistent(Apply(d, Install(p))) && World(Apply(d, Install(p))) == World(d)
  {
    var e := Apply(d, Install(p));
    assert Journaled(e.stage.value) == Journaled(d.stage.value);
    SameUndone(d.root, d.stage.value, e.root, e.stage.value);
  }

  lemma PutBackKeepsWorld(d: Disk, p: Path)
    requires Consistent(d) && Legal(d, PutBack(p))
    ensures Consistent(Apply(d, PutBack(p))) && World(Apply(d, PutBack(p))) == World(d)
  {
    var e := Apply(d, PutBack(p));
    assert Journaled(e.stage.value) == Journaled(d.stage.value);
    SameUndone(d.root, d.stage.value, e.root, e.stage.value);
  }

  /** Every legal write conserves the world, except the creation of the marker, which makes
      the tree as it stands the world. */
  lemma StepWorld(d: Disk, w: Write)
    requires Consistent(d) && Legal(d, w)
    ensures Consistent(Apply(d, w))
    ensures World(Apply(d, w)) == if w.MarkCommitted? then d.root else World(d)
  {
    match w
    case Remove(left) => RemoveKeepsWorld(d, left);
    case Note(p) => NoteKeepsWorld(d, p);
    case SetAside(p) => SetAsideKeepsWorld(d, p);
    case Install(p) => InstallKeepsWorld(d, p);
    case PutBack(p) => PutBackKeepsWorld(d, p);
    case MakeStage => assert Undone(d.root, EMPTY_STAGE) == d.root;
    case NewJournal =>
      UndoChangesNothingIffQuiet(d.root, d.stage.value);
      UndoChangesNothingIffQuiet(d.root, Apply(d, w).stage.value);
    case Deliver(_, _, _) => SameUndone(d.root, d.stage.value, d.root, Apply(d, w).stage.value);
    case OpenDirs => SameUndone(d.root, d.stage.value, d.root, Apply(d, w).stage.value);
    case MarkApplied => SameUndone(d.root, d.stage.value, d.root, Apply(d, w).stage.value);
    case MarkCommitted =>
  }

  /** The world of any legal history, however many processes wrote it and wherever each was
      killed: the tree at the last `committed` marker, or the starting world if none was made. */
  function DecidedWorld(d: Disk, ws: seq<Write>, world: map<Path, Content>): map<Path, Content>
    decreases |ws|
  {
    if ws == [] then world
    else DecidedWorld(Apply(d, ws[0]), ws[1..], if ws[0].MarkCommitted? then d.root else world)
  }

  lemma {:induction false} HistoryDecidesWorld(d: Disk, ws: seq<Write>)
    requires Consistent(d) && LegalRun(d, ws)
    ensures Consistent(Run(d, ws))
    ensures World(Run(d, ws)) == DecidedWorld(d, ws, World(d))
    decreases |ws|
  {
    if ws != [] {
      StepWorld(d, ws[0]);
      HistoryDecidesWorld(Apply(d, ws[0]), ws[1..]);
    }
  }

  lemma {:induction false} RunKeepsWorld(d: Disk, ws: seq<Write>)
    requires Consistent(d) && LegalRun(d, ws)
    requires forall w <- ws :: !w.MarkCommitted?
    ensures Consistent(Run(d, ws)) && World(Run(d, ws)) == World(d)
    decreases |ws|
  {
    if ws != [] {
      StepWorld(d, ws[0]);
      RunKeepsWorld(Apply(d, ws[0]), ws[1..]);
    }
  }

  lemma {:induction false} RunAppend(d: Disk, a: seq<Write>, b: seq<Write>)
    ensures Run(d, a + b) == Run(Run(d, a), b)
    ensures LegalRun(d, a + b) <==> LegalRun(d, a) && LegalRun(Run(d, a), b)
    decreases |a|
  {
    if a == [] {
      assert a + b == b;
    } else {
      assert (a + b)[0] == a[0] && (a + b)[1..] == a[1..] + b;
      RunAppend(Apply(d, a[0]), a[1..], b);
    }
  }

  /** A script killed after `kill` writes is a prefix of the script. */
  function Cut(ws: seq<Write>, kill: Option<nat>): seq<Write> {
    if kill.Some? && kill.value < |ws| then ws[..kill.value] else ws
  }

  predicate Completes(ws: seq<Write>, kill: Option<nat>) {
    kill.Some? ==> kill.value >= |ws|
  }

  lemma CutIsLegal(d: Disk, ws: seq<Write>, kill: Option<nat>)
    requires LegalRun(d, ws)
    ensures LegalRun(d, Cut(ws, kill))
  {
    if !Completes(ws, kill) {
      var k := kill.value;
      assert ws == ws[..k] + ws[k..];
      RunAppend(d, ws[..k], ws[k..]);
    }
  }

  // ---- the commit script ----

  function Body(targets: seq<Path>): seq<Write> {
    if targets == [] then []
    else [Note(targets[0]), SetAside(targets[0]), Install(targets[0])] + Body(targets[1..])
  }

  function CommitScript(targets: seq<Path>): seq<Write> {
    [OpenDirs, NewJournal] + Body(targets) + [MarkApplied]
  }

  predicate Distinct(s: seq<Path>) {
    forall i, j :: 0 <= i < j < |s| ==> s[i] != s[j]
  }

  /** The tree a commit over `targets` produces. */
  function Replaced(root: map<Path, Content>, arriving: map<Path, Content>, targets: set<Path>): map<Path, Content> {
    map p | p in root.Keys + arriving.Keys && (if p in targets then p in arriving else p in root)
      :: if p in targets then arriving[p] else root[p]
  }

  lemma RunThree(d: Disk, a: Write, b: Write, c: Write, rest: seq<Write>)
    ensures Run(d, [a, b, c] + rest) == Run(Apply(Apply(Apply(d, a), b), c), rest)
    ensures LegalRun(d, [a, b, c] + rest) <==>
            Legal(d, a) && Legal(Apply(d, a), b) && Legal(Apply(Apply(d, a), b), c) &&
            LegalRun(Apply(Apply(Apply(d, a), b), c), rest)
  {
    var ws := [a, b, c] + rest;
    assert ws[1..] == [b, c] + rest && ws[1..][1..] == [c] + rest && ws[1..][1..][1..] == rest;
    assert ws[0] == a && ws[1..][0] == b && ws[1..][1..][0] == c;
    var d1 := Apply(d, a);
    var d2 := Apply(d1, b);
    assert Run(d, ws) == Run(d1, ws[1..]) && Run(d1, ws[1..]) == Run(d2, ws[1..][1..]);
    assert LegalRun(d1, ws[1..]) == (Legal(d1, b) && LegalRun(d2, ws[1..][1..]));
  }

  /** One turn of the commit loop. */
  function OneTarget(d: Disk, p: Path): Disk {
    Apply(Apply(Apply(d, Note(p)), SetAside(p)), Install(p))
  }

  predicate Committing(d: Disk) {
    d.stage.Some? && !d.stage.value.committed && d.stage.value.dirs && d.stage.value.journal.Some?
  }

  predicate Untouched(d: Disk, p: Path)
    requires d.stage.Some?
  {
    p !in d.stage.value.original && p !in d.stage.value.added
  }

  lemma OneTargetStage(d: Disk, p: Path)
    requires Committing(d) && Untouched(d, p)
    ensures var s := d.stage.value; var e := OneTarget(d, p);
            && Committing(e)
            && (forall q :: q != p && Untouched(d, q) ==> Untouched(e, q))
            && e.stage.value.journal == Some(s.journal.value + [p])
            && Arriving(e.stage.value) == Arriving(s) - {p}
  {
  }

  lemma OneTargetLegal(d: Disk, p: Path)
    requires Committing(d) && Untouched(d, p)
    ensures Legal(d, Note(p)) && Legal(Apply(d, Note(p)), SetAside(p))
    ensures Legal(Apply(Apply(d, Note(p)), SetAside(p)), Install(p))
  {
    var d1 := Apply(d, Note(p));
    assert d1.stage.value.journal.value[|d.stage.value.journal.value|] == p;
    assert p in Journaled(d1.stage.value);
  }

  lemma OneTargetRoot(d: Disk, p: Path)
    requires Committing(d)
    ensures OneTarget(d, p).root == Replaced(d.root, Arriving(d.stage.value), {p})
  {
    var d2 := Apply(Apply(d, Note(p)), SetAside(p));
    assert d2.root == d.root - {p};
    assert Arriving(d2.stage.value) == Arriving(d.stage.value);
  }

  lemma ReplacedTwice(root: map<Path, Content>, arriving: map<Path, Content>, p: Path, rest: set<Path>)
    requires p !in rest
    ensures Replaced(Replaced(root, arriving, {p}), arriving - {p}, rest) == Replaced(root, arriving, {p} + rest)
  {
    var once, twice := Replaced(root, arriving, {p}), Replaced(root, arriving, {p} + rest);
    var step := Replaced(once, arriving - {p}, rest);
    forall q ensures q in step <==> q in twice { }
  }

  lemma ReplacedStep(root: map<Path, Content>, arriving: map<Path, Content>, targets: seq<Path>)
    requires targets != [] && Distinct(targets)
    ensures Replaced(Replaced(root, arriving, {targets[0]}), arriving - {targets[0]}, Elements(targets[1..]))
            == Replaced(root, arriving, Elements(targets))
  {
    var p, rest := targets[0], Elements(targets[1..]);
    assert Elements(targets) == {p} + rest && p !in rest;
    hide Elements;
    ReplacedTwice(root, arriving, p, rest);
  }

  lemma {:induction false} BodyRuns(d: Disk, targets: seq<Path>)
    requires Committing(d) && Distinct(targets)
    requires forall p <- targets :: Untouched(d, p)
    ensures LegalRun(d, Body(targets))
    ensures var e := Run(d, Body(targets));
            && e.root == Replaced(d.root, Arriving(d.stage.value), Elements(targets))
            && Committing(e) && e.stage.value.journal == Some(d.stage.value.journal.value + targets)
    decreases |targets|
  {
    if targets == [] {
      assert Replaced(d.root, Arriving(d.stage.value), {}) == d.root;
      assert d.stage.value.journal.value + [] == d.stage.value.journal.value;
    } else {
      var p := targets[0];
      var d3 := OneTarget(d, p);
      OneTargetStage(d, p);
      OneTargetLegal(d, p);
      OneTargetRoot(d, p);
      RunThree(d, Note(p), SetAside(p), Install(p), Body(targets[1..]));
      assert forall q <- targets[1..] :: q != p && q in targets;
      BodyRuns(d3, targets[1..]);
      ReplacedStep(d.root, Arriving(d.stage.value), targets);
      assert d.stage.value.journal.value + [p] + targets[1..] == d.stage.value.journal.value + targets;
    }
  }

  /** A commit that runs to its end is legal throughout and leaves the finished tree, still undoable. */
  lemma CommitRuns(d: Disk, targets: seq<Path>)
    requires Consistent(d) && d.stage.Some? && !d.stage.value.committed && !d.stage.value.dirs
    requires Distinct(targets)
    ensures LegalRun(d, CommitScript(targets))
    ensures var e := Run(d, CommitScript(targets));
            && e.root == Replaced(d.root, Arriving(d.stage.value), Elements(targets))
            && e.stage.Some? && e.stage.value.applied && !e.stage.value.committed
            && e.stage.value.journal == Some(targets)
  {
    var open := [OpenDirs, NewJournal];
    var d2 := Apply(Apply(d, OpenDirs), NewJournal);
    assert open[1..] == [NewJournal] && open[1..][1..] == [];
    assert Run(Apply(d, OpenDirs), [NewJournal]) == d2 && LegalRun(Apply(d, OpenDirs), [NewJournal]);
    assert Run(d, open) == d2 && LegalRun(d, open);
    BodyRuns(d2, targets);
    RunAppend(d, open, Body(targets));
    RunAppend(d, open + Body(targets), [MarkApplied]);
    var e2 := Run(d2, Body(targets));
    assert LegalRun(e2, [MarkApplied]) && Run(e2, [MarkApplied]) == Apply(e2, MarkApplied);
    assert [] + targets == targets;
  }

  /** Killing commit anywhere, even after it is complete, keeps the world it started from. */
  lemma KilledCommitKeepsWorld(d: Disk, targets: seq<Path>, kill: Option<nat>)
    requires Consistent(d) && d.stage.Some? && !d.stage.value.committed && !d.stage.value.dirs
    requires Distinct(targets)
    ensures Consistent(Run(d, Cut(CommitScript(targets), kill)))
    ensures World(Run(d, Cut(CommitScript(targets), kill))) == World(d)
  {
    CommitRuns(d, targets);
    CutIsLegal(d, CommitScript(targets), kill);
    NoMarkerInBody(targets);
    RunKeepsWorld(d, Cut(CommitScript(targets), kill));
  }

  lemma {:induction false} NoMarkerInBody(targets: seq<Path>)
    ensures forall w <- Body(targets) :: !w.MarkCommitted?
  {
    if targets != [] { NoMarkerInBody(targets[1..]); }
  }

  // ---- the recover script ----

  function Replay(journal: seq<Path>): seq<Write> {
    seq(|journal|, i requires 0 <= i < |journal| => PutBack(journal[i]))
  }

  /** What recover writes before it deletes the stage. */
  function ReplayScript(s: Stage): seq<Write> {
    if s.committed || s.journal.None? then [] else Replay(s.journal.value)
  }

  /** recover: replay the journal unless the stage is committed, then delete the stage. A kill
      inside the deletion leaves the remnant `left`. */
  function RecoverScript(s: Stage, left: Option<Stage>): seq<Write> {
    ReplayScript(s) + [Remove(left)]
  }

  /** Paths of `journal` in `done` have been handled: nothing is left to put back for them. */
  predicate Handled(d: Disk, done: set<Path>) {
    d.stage.Some? && forall p <- done :: p !in d.stage.value.original && (p in d.stage.value.added ==> p !in d.root)
  }

  lemma {:induction false} ReplayRuns(d: Disk, journal: seq<Path>, done: set<Path>)
    requires Consistent(d) && d.stage.Some? && !d.stage.value.committed
    requires forall p <- journal :: p in Journaled(d.stage.value)
    requires Handled(d, done)
    ensures LegalRun(d, Replay(journal))
    ensures var e := Run(d, Replay(journal));
            && Handled(e, done + Elements(journal)) && !e.stage.value.committed
            && e.stage.value.journal == d.stage.value.journal
            && e.stage.value == d.stage.value.(original := e.stage.value.original)
    decreases |journal|
  {
    if journal == [] {
      assert Elements(journal) == {};
      assert done + Elements(journal) == done;
    } else {
      var e := Apply(d, PutBack(journal[0]));
      assert Replay(journal)[0] == PutBack(journal[0]);
      assert Replay(journal)[1..] == Replay(journal[1..]);
      StepWorld(d, PutBack(journal[0]));
      ReplayRuns(e, journal[1..], done + {journal[0]});
      assert done + {journal[0]} + Elements(journal[1..]) == done + Elements(journal);
    }
  }

  /** The loop of recover computes the closed form `Undone`, and a replay cut short by a kill
      still leaves the same world for the next one. */
  lemma ReplayComputesUndone(d: Disk, kill: Option<nat>)
    requires Consistent(d) && d.stage.Some? && !d.stage.value.committed && d.stage.value.journal.Some?
    ensures Run(d, Replay(d.stage.value.journal.value)).root == Undone(d.root, d.stage.value)
    ensures World(Run(d, Cut(Replay(d.stage.value.journal.value), kill))) == World(d)
  {
    var journal := d.stage.value.journal.value;
    ReplayRuns(d, journal, {});
    CutIsLegal(d, Replay(journal), kill);
    RunKeepsWorld(d, Cut(Replay(journal), kill));
    RunKeepsWorld(d, Replay(journal));
    var e := Run(d, Replay(journal));
    assert Journaled(e.stage.value) == Elements(journal);
    UndoChangesNothingIffQuiet(e.root, e.stage.value);
  }

  /** The stage once the journal has been replayed: what `rm -rf` then starts deleting. */
  function Replayed(d: Disk): Disk {
    if d.stage.None? || d.stage.value.committed || d.stage.value.journal.None? then d
    else Run(d, Replay(d.stage.value.journal.value))
  }

  /** A deletion may be killed, leaving any remnant; a committed stage obeys the assumption. */
  predicate DeletionMayLeave(d: Disk, left: Option<Stage>) {
    var e := Replayed(d);
    e.stage.Some? && Remnant(left, e.stage.value) &&
    (e.stage.value.committed && left.Some? ==> left.value.committed || Quiet(e.root, left.value))
  }

  lemma ReplayScriptRuns(d: Disk)
    requires Consistent(d) && d.stage.Some?
    ensures var script := ReplayScript(d.stage.value);
            && LegalRun(d, script) && Run(d, script) == Replayed(d)
            && (forall w <- script :: !w.MarkCommitted?)
    ensures var e := Replayed(d);
            && e.root == World(d) && e.stage.Some? && e.stage.value.committed == d.stage.value.committed
            && (!e.stage.value.committed ==> RolledBack(e.root, e.stage.value))
  {
    hide Undone, Quiet;
    var s := d.stage.value;
    if !s.committed {
      if s.journal.Some? {
        ReplayRuns(d, s.journal.value, {});
        ReplayComputesUndone(d, None);
        assert Journaled(Replayed(d).stage.value) == Elements(s.journal.value);
      } else {
        assert Quiet(d.root, s) by { NothingJournaledIsQuiet(d.root, s); }
        UndoChangesNothingIffQuiet(d.root, s);
      }
    }
  }

  lemma NothingJournaledIsQuiet(root: map<Path, Content>, s: Stage)
    requires s.journal.None?
    ensures Quiet(root, s)
  {
  }

  /** recover, killed anywhere and with any remnant of its deletion, keeps the world; once it
      reaches the deletion that world is the tree. */
  lemma RecoverRuns(d: Disk, left: Option<Stage>, kill: Option<nat>)
    requires Consistent(d) && d.stage.Some? && DeletionMayLeave(d, left)
    ensures var script := RecoverScript(d.stage.value, left);
            && LegalRun(d, script)
            && Consistent(Run(d, Cut(script, kill))) && World(Run(d, Cut(script, kill))) == World(d)
            && Run(d, script) == Disk(World(d), left)
  {
    hide World, Consistent, Replay, Replayed, Remnant, Quiet, RolledBack;
    var replay, script := ReplayScript(d.stage.value), RecoverScript(d.stage.value, left);
    assert script == replay + [Remove(left)];
    ReplayScriptRuns(d);
    RunAppend(d, replay, [Remove(left)]);
    assert [Remove(left)][1..] == [];
    CutIsLegal(d, script, kill);
    RunKeepsWorld(d, Cut(script, kill));
  }

  // ---- the assumption about deleting a committed stage ----

  /** If the deletion of a committed stage is interrupted, the finished restore survives the next
      prepare exactly when the marker is still there or the surviving records are quiet. */
  lemma InterruptedCleanup(d: Disk, left: Option<Stage>)
    requires d.stage.Some? && d.stage.value.committed && Remnant(left, d.stage.value)
    ensures World(Disk(d.root, left)) == World(d) <==>
            left.None? || left.value.committed || Quiet(d.root, left.value)
  {
    if left.Some? { UndoChangesNothingIffQuiet(d.root, left.value); }
  }

  /** Without the assumption a finished restore can be lost: delete the marker first, then die. */
  lemma MarkerDeletedFirstLosesRestore() returns (d: Disk, left: Option<Stage>)
    ensures Consistent(d) && d.stage.Some? && d.stage.value.committed && Remnant(left, d.stage.value)
    ensures World(Disk(d.root, left)) != World(d)
  {
    var s := EMPTY_STAGE.(dirs := true, original := map[0 := "old"], journal := Some([0]), applied := true);
    d := Disk(map[0 := "new"], Some(s.(committed := true)));
    left := Some(s);
    assert 0 in Journaled(s) by { assert s.journal.value[0] == 0; }
    InterruptedCleanup(d, left);
  }
}
