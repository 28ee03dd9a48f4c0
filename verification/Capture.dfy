/** Checking a captured archive against the fingerprint of its source. */
module Capture {
  import opened Options
  import opened Fingerprint
  import Decimals
  import opened Units

  const DATA_ROOT := "/home/steam/rsdw-dedicated"

  datatype Content = Content(size: nat, digest: string, readable: bool)
  datatype EntryType = RegularFile | Directory | OtherEntry
  datatype Entry = Broken | Entry(name: string, kind: EntryType, content: Content)
  datatype Item = FileItem(content: Content) | TreeItem(entries: seq<Entry>)

  /** The path a relative name has in the fingerprint: names are clean, so joining is concatenation. */
  function PathOf(name: string): string { DATA_ROOT + "/" + name }

  predicate BadChar(c: char) { c in "\\\r\n\t*?[]" || c == NUL }

  function Segments(s: string): (segments: seq<string>)
    ensures segments != []
  {
    if s == [] then [[]]
    else
      var before := Segments(s[..|s|-1]);
      if s[|s|-1] == '/' then before + [[]]
      else before[..|before|-1] + [before[|before|-1] + [s[|s|-1]]]
  }

  /** `ValidateBackupRelativePath`. A relative path whose segments are proper is its own clean form. */
  predicate ValidRelative(s: string) {
    && s != "" && (forall c :: c in s ==> !BadChar(c)) && s[0] != '-' && !(".c2-" <= s)
    && forall g :: g in Segments(s) ==> g != "" && g != "." && g != ".."
  }

  /** The characters from `i` to `j` lie between two slashes, or an end, with none among them. */
  predicate SegmentAt(s: string, i: nat, j: nat) {
    i <= j <= |s| && (i == 0 || s[i-1] == '/') && (j == |s| || s[j] == '/') && forall k :: i <= k < j ==> s[k] != '/'
  }

  ghost predicate HasSegment(s: string, g: string, before: bool) {
    exists i: nat, j: nat :: SegmentAt(s, i, j) && g == s[i..j] && (before <==> j < |s|)
  }

  lemma SegmentGrows(s: string, i: nat, j: nat)
    requires s != "" && i <= j <= |s|
    ensures var t := s[..|s|-1];
      SegmentAt(s, i, j) <==>
        if j < |s| - 1 then SegmentAt(t, i, j)
        else if j == |s| - 1 then s[|s|-1] == '/' && SegmentAt(t, i, j)
        else if s[|s|-1] == '/' then i == |s| else i < |s| && SegmentAt(t, i, |s| - 1)
  {
    var t := s[..|s|-1];
    assert forall k :: 0 <= k < |t| ==> t[k] == s[k];
  }

  lemma OneSegment(g: string)
    ensures !HasSegment("", g, true) && (HasSegment("", g, false) <==> g == "")
  {
    assert SegmentAt("", 0, 0) && ""[0..0] == "";
  }

  lemma InEither(all: seq<string>, g: string)
    requires all != []
    ensures g in all <==> g in all[..|all|-1] || g == all[|all|-1]
  {
    assert all == all[..|all|-1] + [all[|all|-1]];
  }

  lemma IsExtended(g: string, h: string, c: char)
    ensures g == h + [c] <==> g != "" && g[|g|-1] == c && g[..|g|-1] == h
  {
  }

  /** The segments are those before the last slash, in some order, and the one after it. */
  lemma {:induction false} SegmentsAre(s: string, g: string)
    ensures var all := Segments(s);
      && (g in all[..|all|-1] <==> HasSegment(s, g, true))
      && (g == all[|all|-1] <==> HasSegment(s, g, false))
    decreases |s|
  {
    hide HasSegment, SegmentAt;
    if s == "" {
      OneSegment(g);
    } else {
      var t, c := s[..|s|-1], s[|s|-1];
      var before, all := Segments(t), Segments(s);
      SegmentsAre(t, g);
      if c == '/' {
        assert all[..|all|-1] == before && all[|all|-1] == "";
        InEither(before, g);
        ClosedSegments(s, g);
      } else {
        var last := before[|before|-1];
        assert all[..|all|-1] == before[..|before|-1] && all[|all|-1] == last + [c];
        IsExtended(g, last, c);
        if g != "" { SegmentsAre(t, g[..|g|-1]); }
        OpenSegments(s, g);
      }
    }
  }

  lemma SegmentOf(s: string, g: string, before: bool) returns (i: nat, j: nat)
    requires HasSegment(s, g, before)
    ensures SegmentAt(s, i, j) && g == s[i..j] && (before <==> j < |s|)
  {
    i, j :| SegmentAt(s, i, j) && g == s[i..j] && (before <==> j < |s|);
  }

  lemma IsSegment(s: string, i: nat, j: nat)
    requires SegmentAt(s, i, j)
    ensures HasSegment(s, s[i..j], j < |s|)
  {
  }

  lemma InRange(s: string, i: nat, j: nat)
    requires SegmentAt(s, i, j)
    ensures i <= j <= |s|
  {
  }

  lemma EmptyEnd(s: string, g: string)
    requires s != "" && s[|s|-1] == '/' && HasSegment(s, g, false)
    ensures g == ""
  {
    hide HasSegment;
    var i, j := SegmentOf(s, g, false);
    assert i == |s|;
  }

  lemma ClosedSegments(s: string, g: string)
    requires s != "" && s[|s|-1] == '/'
    ensures var t := s[..|s|-1];
      && (HasSegment(s, g, true) <==> HasSegment(t, g, true) || HasSegment(t, g, false))
      && (HasSegment(s, g, false) <==> g == "")
  {
    hide HasSegment, SegmentAt;
    var t := s[..|s|-1];
    if HasSegment(s, g, true) {
      var i, j := SegmentOf(s, g, true);
      InRange(s, i, j);
      SegmentGrows(s, i, j);
      IsSegment(t, i, j);
      assert t[i..j] == s[i..j];
    }
    forall before | HasSegment(t, g, before) ensures HasSegment(s, g, true) {
      var i, j := SegmentOf(t, g, before);
      InRange(t, i, j);
      SegmentGrows(s, i, j);
      IsSegment(s, i, j);
      assert t[i..j] == s[i..j];
    }
    if HasSegment(s, g, false) { EmptyEnd(s, g); }
    SegmentGrows(s, |s|, |s|);
    IsSegment(s, |s|, |s|);
    assert s[|s|..|s|] == "";
  }

  lemma OpenSegments(s: string, g: string)
    requires s != "" && s[|s|-1] != '/'
    ensures var t := s[..|s|-1];
      && (HasSegment(s, g, true) <==> HasSegment(t, g, true))
      && (HasSegment(s, g, false) <==> g != "" && g[|g|-1] == s[|s|-1] && HasSegment(t, g[..|g|-1], false))
  {
    hide HasSegment, SegmentAt;
    var t := s[..|s|-1];
    if HasSegment(s, g, true) {
      var i, j := SegmentOf(s, g, true);
      InRange(s, i, j);
      SegmentGrows(s, i, j);
      IsSegment(t, i, j);
      assert t[i..j] == s[i..j];
    }
    if HasSegment(t, g, true) {
      var i, j := SegmentOf(t, g, true);
      InRange(t, i, j);
      SegmentGrows(s, i, j);
      IsSegment(s, i, j);
      assert t[i..j] == s[i..j];
    }
    if HasSegment(s, g, false) { LastShrinks(s, g); }
    if g != "" && g[|g|-1] == s[|s|-1] && HasSegment(t, g[..|g|-1], false) { LastGrows(s, g); }
  }

  lemma LastShrinks(s: string, g: string)
    requires s != "" && s[|s|-1] != '/' && HasSegment(s, g, false)
    ensures g != "" && g[|g|-1] == s[|s|-1] && HasSegment(s[..|s|-1], g[..|g|-1], false)
  {
    hide HasSegment, SegmentAt;
    var t := s[..|s|-1];
    var i, j := SegmentOf(s, g, false);
    InRange(s, i, j);
    SegmentGrows(s, i, |s|);
    IsSegment(t, i, |t|);
    assert g[..|g|-1] == t[i..|t|];
  }

  lemma LastGrows(s: string, g: string)
    requires s != "" && s[|s|-1] != '/' && g != "" && g[|g|-1] == s[|s|-1]
    requires HasSegment(s[..|s|-1], g[..|g|-1], false)
    ensures HasSegment(s, g, false)
  {
    hide HasSegment, SegmentAt;
    var t, h := s[..|s|-1], g[..|g|-1];
    var i, j := SegmentOf(t, h, false);
    InRange(t, i, j);
    SegmentGrows(s, i, |s|);
    IsSegment(s, i, |s|);
    assert g == h + [s[|s|-1]];
    assert s == t + [s[|s|-1]];
    assert s[i..|s|] == t[i..|t|] + [s[|s|-1]];
  }

  /** A valid relative path: not empty, no forbidden character, no leading dash, slash or staging prefix, and
      between any two slashes or ends neither nothing nor a dot nor two dots. */
  lemma ValidRelativeIs(s: string)
    ensures ValidRelative(s) <==>
      && s != "" && s[0] != '-' && !(|s| >= 4 && s[..4] == ".c2-")
      && (forall k :: 0 <= k < |s| ==>
            s[k] !in ['\\', '\r', '\n', '\t', '*', '?', '[', ']'] && s[k] as int != 0)
      && (forall i: nat, j: nat :: SegmentAt(s, i, j) ==> s[i..j] != "" && s[i..j] != "." && s[i..j] != "..")
  {
    var all := Segments(s);
    assert all == all[..|all|-1] + [all[|all|-1]];
    forall g ensures g in all <==> exists i: nat, j: nat :: SegmentAt(s, i, j) && g == s[i..j] {
      SegmentsAre(s, g);
      if i: nat, j: nat :| SegmentAt(s, i, j) && g == s[i..j] {
        assert HasSegment(s, g, j < |s|);
      }
    }
    forall k | 0 <= k < |s|
      ensures BadChar(s[k]) <==>
        s[k] in ['\\', '\r', '\n', '\t', '*', '?', '[', ']'] || s[k] as int == 0
    {
    }
    if ValidRelative(s) {
      forall i: nat, j: nat | SegmentAt(s, i, j) ensures s[i..j] != "" && s[i..j] != "." && s[i..j] != ".." {
        assert s[i..j] in all;
      }
    }
  }

  function Trimmed(name: string): string {
    if name != "" && name[|name|-1] == '/' then name[..|name|-1] else name
  }

  /** The name lies at or under the captured path, and a running server's archive holds no save file. */
  predicate Allowed(e: Entry, relative: string, running: bool, saveFile: string -> bool)
    requires e.Entry?
  {
    var name := Trimmed(e.name);
    && ValidRelative(name) && (name == relative || relative + "/" <= name)
    && e.kind != OtherEntry && !(running && saveFile(name))
  }

  predicate Matches(r: Record, directory: bool, content: Content) {
    && (r.kind == "d") == directory
    && (!directory ==> content.readable && Decimals.Print(content.size) == r.size && content.digest == r.digest)
  }

  function EntryPath(e: Entry): string
    requires e.Entry?
  {
    PathOf(Trimmed(e.name))
  }

  predicate Agrees(e: Entry, records: map<string, Record>, relative: string, running: bool, saveFile: string -> bool) {
    && e.Entry? && Allowed(e, relative, running, saveFile)
    && EntryPath(e) in records && Matches(records[EntryPath(e)], e.kind == Directory, e.content)
  }

  /** When an archive entry agrees with the records: its name, without a closing slash, is a valid path at or under
      the captured one, names no save of a running server, and stands in the records with the same type and, for
      a file, the same byte count and digest. */
  lemma AgreesIs(e: Entry, records: map<string, Record>, relative: string, running: bool, saveFile: string -> bool)
    requires e.Entry?
    ensures var n := |e.name|;
      var name := if n > 0 && e.name[n-1] == '/' then e.name[..n-1] else e.name;
      var key := "/home/steam/rsdw-dedicated" + "/" + name;
      Agrees(e, records, relative, running, saveFile) <==>
        && ValidRelative(name)
        && (name == relative || (|name| > |relative| && name[..|relative|] == relative && name[|relative|] == '/'))
        && (running ==> !saveFile(name)) && key in records
        && match e.kind
           case Directory => records[key].kind == "d"
           case RegularFile =>
             && records[key].kind != "d" && e.content.readable
             && records[key].size == Decimals.Print(e.content.size) && records[key].digest == e.content.digest
           case OtherEntry => false
  {
  }

  function Paths(entries: seq<Entry>): set<string> {
    set i | 0 <= i < |entries| && entries[i].Entry? :: EntryPath(entries[i])
  }

  predicate DistinctPaths(entries: seq<Entry>) {
    forall i, j :: 0 <= i < j < |entries| && entries[i].Entry? && entries[j].Entry? ==>
      EntryPath(entries[i]) != EntryPath(entries[j])
  }

  /** The entries and the records correspond one to one. */
  predicate TreeAgrees(entries: seq<Entry>, records: map<string, Record>, relative: string, running: bool,
      saveFile: string -> bool)
  {
    && (forall i :: 0 <= i < |entries| ==> Agrees(entries[i], records, relative, running, saveFile))
    && DistinctPaths(entries) && Paths(entries) == records.Keys
  }

  predicate CaptureAgrees(item: Item, records: map<string, Record>, relative: string, running: bool,
      saveFile: string -> bool)
  {
    match item
    case FileItem(content) =>
      records.Keys == {PathOf(relative)} && Matches(records[PathOf(relative)], false, content)
    case TreeItem(entries) => TreeAgrees(entries, records, relative, running, saveFile)
  }

  lemma PathsGrow(entries: seq<Entry>, n: nat)
    requires n < |entries| && entries[n].Entry?
    ensures Paths(entries[..n+1]) == Paths(entries[..n]) + {EntryPath(entries[n])}
  {
    var a, b := entries[..n], entries[..n+1];
    assert b == a + [entries[n]];
    forall p | p in Paths(a) + {EntryPath(entries[n])} ensures p in Paths(b) {
      if p in Paths(a) {
        var i :| 0 <= i < |a| && a[i].Entry? && EntryPath(a[i]) == p;
        assert b[i] == a[i];
      } else {
        assert b[n] == entries[n];
      }
    }
  }

  /** `verifyBackupCapture`, with `saveFile` for the case-insensitive extension test. */
  method VerifyTree(entries: seq<Entry>, records: map<string, Record>, relative: string, running: bool,
      saveFile: string -> bool)
    returns (ok: bool)
    ensures ok <==> TreeAgrees(entries, records, relative, running, saveFile)
  {
    hide Allowed, Matches;
    var rest := records;
    assert Paths(entries[..0]) == {};
    for n := 0 to |entries|
      invariant forall i :: 0 <= i < n ==> Agrees(entries[i], records, relative, running, saveFile)
      invariant DistinctPaths(entries[..n])
      invariant rest == records - Paths(entries[..n])
    {
      var e := entries[n];
      if e.Broken? || !Allowed(e, relative, running, saveFile) { return false; }
      PathsGrow(entries, n);
      if EntryPath(e) !in rest {
        if EntryPath(e) in records { Repeated(entries, n); }
        return false;
      }
      if !Matches(rest[EntryPath(e)], e.kind == Directory, e.content) { return false; }
      FirstOfItsName(entries, n);
      rest := rest - {EntryPath(e)};
    }
    assert entries[..|entries|] == entries;
    ok := rest == map[];
    LeftOver(entries, records, rest);
  }

  lemma OnlyKey(records: map<string, Record>, path: string)
    requires path in records
    ensures records - {path} == map[] <==> records.Keys == {path}
  {
    var rest := records - {path};
    if rest == map[] {
      forall k | k in records ensures k == path {
        assert k !in rest;
      }
    }
  }

  lemma LeftOver(entries: seq<Entry>, records: map<string, Record>, rest: map<string, Record>)
    requires rest == records - Paths(entries)
    requires forall i :: 0 <= i < |entries| ==> entries[i].Entry? && EntryPath(entries[i]) in records
    ensures rest == map[] <==> Paths(entries) == records.Keys
  {
    if rest == map[] {
      forall k | k in records ensures k in Paths(entries) {
        assert k !in rest;
      }
    }
  }

  lemma Repeated(entries: seq<Entry>, n: nat)
    requires n < |entries| && entries[n].Entry? && EntryPath(entries[n]) in Paths(entries[..n])
    ensures !DistinctPaths(entries)
  {
    var i :| 0 <= i < n && entries[..n][i].Entry? && EntryPath(entries[..n][i]) == EntryPath(entries[n]);
    assert entries[i].Entry?;
  }

  lemma FirstOfItsName(entries: seq<Entry>, n: nat)
    requires n < |entries| && DistinctPaths(entries[..n]) && entries[n].Entry?
    requires EntryPath(entries[n]) !in Paths(entries[..n])
    ensures DistinctPaths(entries[..n+1])
  {
    var a, b := entries[..n], entries[..n+1];
    forall i, j | 0 <= i < j < |b| && b[i].Entry? && b[j].Entry? ensures EntryPath(b[i]) != EntryPath(b[j]) {
      assert a[i] == b[i];
      if j < n { assert a[j] == b[j]; }
    }
  }

  /** Accepts a capture exactly when the fingerprint is well formed and entries and records agree one to one
      in path, type, size and digest. */
  method VerifyCapture(snapshot: string, item: Item, relative: string, running: bool, saveFile: string -> bool)
    returns (ok: bool)
    ensures ok <==> Parse(snapshot).Some? && CaptureAgrees(item, Parse(snapshot).value, relative, running, saveFile)
  {
    var records := FingerprintRecords(snapshot);
    if records.None? { return false; }
    match item
    case FileItem(content) =>
      var path := PathOf(relative);
      if path !in records.value || !Matches(records.value[path], false, content) { return false; }
      var rest := records.value - {path};
      OnlyKey(records.value, path);
      return rest == map[];
    case TreeItem(entries) =>
      ok := VerifyTree(entries, records.value, relative, running, saveFile);
  }

  // ---- what acceptance means ----

  lemma {:induction false} AsManyPaths(entries: seq<Entry>)
    requires DistinctPaths(entries) && forall i :: 0 <= i < |entries| ==> entries[i].Entry?
    ensures |Paths(entries)| == |entries|
  {
    if entries == [] {
      assert Paths(entries) == {};
    } else {
      var n := |entries| - 1;
      var init := entries[..n];
      assert DistinctPaths(init);
      AsManyPaths(init);
      PathsGrow(entries, n);
      assert entries[..n+1] == entries;
      if EntryPath(entries[n]) in Paths(init) { Repeated(entries, n); }
    }
  }

  /** An accepted archive has one entry per record, each of the recorded byte count and digest. */
  lemma AcceptedIsOneToOne(entries: seq<Entry>, records: map<string, Record>, relative: string, running: bool,
      saveFile: string -> bool)
    requires TreeAgrees(entries, records, relative, running, saveFile)
    ensures |entries| == |records|
    ensures forall k :: k in records ==> exists i :: 0 <= i < |entries| && EntryPath(entries[i]) == k
    ensures forall i :: 0 <= i < |entries| && entries[i].kind == RegularFile && entries[i].content.size <= MAX64 ==>
      Decimals.ParseNat64(records[EntryPath(entries[i])].size) == Some(entries[i].content.size)
  {
    AsManyPaths(entries);
    assert |records.Keys| == |records|;
    forall k | k in records ensures exists i :: 0 <= i < |entries| && EntryPath(entries[i]) == k {
      assert k in Paths(entries);
    }
    forall i | 0 <= i < |entries| && entries[i].kind == RegularFile && entries[i].content.size <= MAX64
      ensures Decimals.ParseNat64(records[EntryPath(entries[i])].size) == Some(entries[i].content.size)
    {
      assert Agrees(entries[i], records, relative, running, saveFile);
      Decimals.PrintThenParse(entries[i].content.size);
    }
  }

  /** Two archives accepted against one fingerprint hold the same tree: same paths, same types, and for
      files the same byte counts and digests. */
  lemma AcceptedCapturesAgree(a: seq<Entry>, b: seq<Entry>, records: map<string, Record>, relative: string,
                              running: bool, saveFile: string -> bool, i: nat) returns (j: nat)
    requires TreeAgrees(a, records, relative, running, saveFile) && TreeAgrees(b, records, relative, running, saveFile)
    requires i < |a|
    ensures j < |b| && a[i].Entry? && b[j].Entry? && EntryPath(a[i]) == EntryPath(b[j]) && a[i].kind == b[j].kind
    ensures a[i].kind == RegularFile ==> a[i].content == b[j].content
  {
    assert Agrees(a[i], records, relative, running, saveFile);
    assert EntryPath(a[i]) in Paths(b);
    j :| 0 <= j < |b| && b[j].Entry? && EntryPath(b[j]) == EntryPath(a[i]);
    assert Agrees(b[j], records, relative, running, saveFile);
    if a[i].kind == RegularFile {
      Decimals.PrintInjective(a[i].content.size, b[j].content.size);
    }
  }
}
