/** The NUL-separated fingerprint of a save tree: parsing, printing and its canonical form. */
module Fingerprint {
  import opened Options
  import Decimals

  const NUL: char := '\0'

  datatype Record = Record(path: string, kind: string, size: string, metadata: string, digest: string)

  predicate NulFree(s: string) { NUL !in s }

  // ---- fields ----

  /** `strings.Split` on NUL: always at least one field. */
  function Split(s: string): (fields: seq<string>)
    ensures fields != [] && forall f :: f in fields ==> NulFree(f)
  {
    if s == [] then [[]]
    else
      var fields := Split(s[..|s|-1]);
      var c := s[|s|-1];
      assert NulFree(fields[|fields|-1]);
      if c == NUL then fields + [[]]
      else fields[..|fields|-1] + [fields[|fields|-1] + [c]]
  }

  function Terminated(fields: seq<string>): string {
    if fields == [] then [] else Terminated(fields[..|fields|-1]) + fields[|fields|-1] + [NUL]
  }

  lemma {:induction false} SplitAppends(s: string, f: string)
    requires NulFree(f)
    ensures Split(s + f) == Split(s)[..|Split(s)|-1] + [Split(s)[|Split(s)|-1] + f]
    decreases |f|
  {
    hide Split;
    var fields := Split(s);
    var n := |fields| - 1;
    if f == [] {
      assert s + f == s && fields[n] + f == fields[n];
    } else {
      var init, c := f[..|f|-1], f[|f|-1];
      SplitAppends(s, init);
      SplitOne(s + init, c);
      assert s + f == s + init + [c] && fields[n] + f == fields[n] + init + [c];
      assert (fields[..n] + [fields[n] + init])[..n] == fields[..n];
    }
  }

  lemma SplitOne(s: string, c: char)
    requires c != NUL
    ensures Split(s + [c]) == Split(s)[..|Split(s)|-1] + [Split(s)[|Split(s)|-1] + [c]]
  {
    assert (s + [c])[..|s|] == s;
  }

  lemma SplitAtNul(s: string)
    ensures Split(s + [NUL]) == Split(s) + [[]]
  {
    assert (s + [NUL])[..|s|] == s;
  }

  /** Splitting undoes terminating: what follows the last NUL is empty. */
  lemma {:induction false} SplitTerminated(fields: seq<string>)
    requires forall f :: f in fields ==> NulFree(f)
    ensures Split(Terminated(fields)) == fields + [[]]
  {
    hide Split;
    if fields == [] {
      SplitEmpty();
    } else {
      var init, f := fields[..|fields|-1], fields[|fields|-1];
      SplitTerminated(init);
      SplitAppends(Terminated(init), f);
      SplitAtNul(Terminated(init) + f);
      assert [] + f == f;
      assert (init + [[]])[..|init|] == init && init + [f] == fields;
    }
  }

  lemma SplitEmpty()
    ensures Split([]) == [[]]
  {
  }

  /** Terminating undoes splitting: any text that ends in NUL is its own fields, terminated. */
  lemma {:induction false} TerminatedSplit(s: string)
    ensures Terminated(Split(s)[..|Split(s)|-1]) + Split(s)[|Split(s)|-1] == s
  {
    if s != [] {
      var init, c := s[..|s|-1], s[|s|-1];
      TerminatedSplit(init);
      var fields := Split(init);
      if c == NUL {
        assert Split(s)[..|Split(s)|-1] == fields;
      } else {
        assert Split(s)[..|Split(s)|-1] == fields[..|fields|-1];
      }
    }
  }

  // ---- records ----

  function RecordAt(fields: seq<string>, i: nat): Record
    requires i + 5 <= |fields|
  {
    Record(fields[i], fields[i+1], fields[i+2], fields[i+3], fields[i+4])
  }

  function Records(fields: seq<string>): seq<Record>
    requires |fields| % 5 == 0
  {
    seq(|fields| / 5, i requires 0 <= i < |fields| / 5 => RecordAt(fields, 5 * i))
  }

  function FieldsOf(r: Record): seq<string> { [r.path, r.kind, r.size, r.metadata, r.digest] }

  function AllFields(rs: seq<Record>): (fields: seq<string>)
    ensures |fields| == 5 * |rs|
  {
    if rs == [] then [] else AllFields(rs[..|rs|-1]) + FieldsOf(rs[|rs|-1])
  }

  /** The text a list of records is printed as. */
  function Listing(rs: seq<Record>): string { Terminated(AllFields(rs)) }

  predicate Plain(r: Record) { forall f :: f in FieldsOf(r) ==> NulFree(f) }

  /** A record the parser accepts. */
  predicate Sound(r: Record) {
    && Decimals.ParseNat64(r.size).Some? && (r.kind == "f" || r.kind == "d")
    && (r.kind == "f" ==> |r.digest| == 64)
  }

  /** A directory or a file with a readable byte count, and for a file a SHA-256 digest in hexadecimal length. */
  lemma SoundIs(r: Record)
    ensures Sound(r) <==>
      Decimals.ParseNat64(r.size) != None && (r.kind == "d" || (r.kind == "f" && |r.digest| == 64))
  {
  }

  predicate Distinct(rs: seq<Record>) { forall i, j :: 0 <= i < j < |rs| ==> rs[i].path != rs[j].path }

  predicate AllSound(rs: seq<Record>) { forall i :: 0 <= i < |rs| ==> Sound(rs[i]) }

  predicate AllPlain(rs: seq<Record>) { forall i :: 0 <= i < |rs| ==> Plain(rs[i]) }

  function MapOf(rs: seq<Record>): map<string, Record> {
    if rs == [] then map[] else MapOf(rs[..|rs|-1])[rs[|rs|-1].path := rs[|rs|-1]]
  }

  function Parse(snapshot: string): Option<map<string, Record>> {
    var fields := Split(snapshot);
    var n := |fields| - 1;
    if n < 5 || fields[n] != [] || n % 5 != 0 then None
    else
      var rs := Records(fields[..n]);
      if Distinct(rs) && AllSound(rs) then Some(MapOf(rs)) else None
  }

  lemma {:induction false} RecordsOfFields(rs: seq<Record>)
    ensures |AllFields(rs)| % 5 == 0 && Records(AllFields(rs)) == rs
  {
    if rs != [] {
      var init := rs[..|rs|-1];
      RecordsOfFields(init);
      forall i | 0 <= i < |rs| ensures RecordAt(AllFields(rs), 5 * i) == rs[i] {
        if i < |init| {
          assert RecordAt(AllFields(init), 5 * i) == Records(AllFields(init))[i];
        }
      }
    }
  }

  lemma {:induction false} FieldsOfRecords(fields: seq<string>)
    requires |fields| % 5 == 0
    ensures AllFields(Records(fields)) == fields
    decreases |fields|
  {
    if fields != [] {
      var n := |fields| - 5;
      FieldsOfRecords(fields[..n]);
      var rs := Records(fields);
      assert rs[..|rs|-1] == Records(fields[..n]);
      assert fields == fields[..n] + FieldsOf(rs[|rs|-1]);
    }
  }

  lemma {:induction false} PlainFields(rs: seq<Record>)
    ensures AllPlain(rs) <==> forall f :: f in AllFields(rs) ==> NulFree(f)
  {
    if rs != [] {
      var init, r := rs[..|rs|-1], rs[|rs|-1];
      PlainFields(init);
      assert AllFields(rs) == AllFields(init) + FieldsOf(r);
      if AllPlain(rs) {
        assert forall i :: 0 <= i < |init| ==> init[i] == rs[i];
      } else {
        if AllPlain(init) {
          assert forall i :: 0 <= i < |init| ==> init[i] == rs[i];
          assert !Plain(r);
          var f :| f in FieldsOf(r) && !NulFree(f);
          assert f in AllFields(rs);
        } else {
          var f :| f in AllFields(init) && !NulFree(f);
          assert f in AllFields(rs);
        }
      }
    }
  }

  predicate Printable(rs: seq<Record>) { rs != [] && AllPlain(rs) && AllSound(rs) && Distinct(rs) }

  /** Parsing what was printed gives the records back. */
  lemma ParseListing(rs: seq<Record>)
    requires rs != [] && AllPlain(rs)
    ensures Parse(Listing(rs)) == if AllSound(rs) && Distinct(rs) then Some(MapOf(rs)) else None
  {
    var fields := AllFields(rs);
    PlainFields(rs);
    SplitTerminated(fields);
    assert Split(Listing(rs))[..|fields|] == fields;
    RecordsOfFields(rs);
  }

  /** Only printed records are accepted: the parser takes exactly the listings of printable records. */
  lemma AcceptedAreListings(snapshot: string) returns (rs: seq<Record>)
    requires Parse(snapshot).Some?
    ensures Printable(rs) && snapshot == Listing(rs) && Parse(snapshot).value == MapOf(rs)
  {
    var fields := Split(snapshot);
    var n := |fields| - 1;
    rs := Records(fields[..n]);
    FieldsOfRecords(fields[..n]);
    TerminatedSplit(snapshot);
    PlainFields(rs);
    assert Listing(rs) + [] == snapshot;
    ParseListing(rs);
  }

  // ---- the canonical form ----

  /** Byte order, as `sort.Strings` uses it. */
  predicate Less(a: string, b: string) {
    if b == [] then false
    else if a == [] then true
    else if a[0] != b[0] then a[0] < b[0]
    else Less(a[1..], b[1..])
  }

  lemma {:induction false} LessTotal(a: string, b: string)
    ensures a == b || Less(a, b) || Less(b, a)
    ensures !(Less(a, b) && Less(b, a)) && !Less(a, a)
    decreases |a|
  {
    if a != [] && b != [] {
      LessTotal(a[1..], b[1..]);
      LessTotal(a[1..], a[1..]);
      if a[0] == b[0] && a[1..] == b[1..] { assert a == [a[0]] + a[1..] && b == [b[0]] + b[1..]; }
    } else if a != [] {
      LessTotal(a[1..], a[1..]);
    }
  }

  lemma {:induction false} LessTransitive(a: string, b: string, c: string)
    requires Less(a, b) && Less(b, c)
    ensures Less(a, c)
    decreases |a|
  {
    if a != [] && a[0] == b[0] && b[0] == c[0] { LessTransitive(a[1..], b[1..], c[1..]); }
  }

  predicate Ascending(rs: seq<Record>) { forall i, j :: 0 <= i < j < |rs| ==> Less(rs[i].path, rs[j].path) }

  lemma {:induction false} MapOfRecords(rs: seq<Record>)
    requires Distinct(rs)
    ensures forall r :: r in rs <==> r.path in MapOf(rs) && MapOf(rs)[r.path] == r
    ensures forall k :: k in MapOf(rs) ==> MapOf(rs)[k] in rs && MapOf(rs)[k].path == k
  {
    if rs != [] {
      var init := rs[..|rs|-1];
      MapOfRecords(init);
      assert rs == init + [rs[|rs|-1]];
    }
  }

  lemma SameLast(a: seq<Record>, b: seq<Record>)
    requires Ascending(a) && Ascending(b) && a != [] && b != []
    requires a[|a|-1] in b && b[|b|-1] in a
    ensures a[|a|-1] == b[|b|-1]
  {
    hide Less;
    var i :| 0 <= i < |b| && b[i] == a[|a|-1];
    var j :| 0 <= j < |a| && a[j] == b[|b|-1];
    LessTotal(a[|a|-1].path, b[|b|-1].path);
  }

  lemma WithoutLast(a: seq<Record>, r: Record)
    requires Ascending(a) && a != []
    ensures r in a[..|a|-1] <==> r in a && r != a[|a|-1]
    ensures Ascending(a[..|a|-1])
  {
    hide Less;
    LessTotal(a[|a|-1].path, a[|a|-1].path);
    assert a == a[..|a|-1] + [a[|a|-1]];
  }

  /** There is one ascending list of any set of records. */
  lemma {:induction false} AscendingIsUnique(a: seq<Record>, b: seq<Record>)
    requires Ascending(a) && Ascending(b) && forall r :: r in a <==> r in b
    ensures a == b
    decreases |a|
  {
    hide Ascending;
    assert (a != [] ==> a[0] in a) && (b != [] ==> b[0] in b);
    if a != [] && b != [] {
      assert a[|a|-1] in a && b[|b|-1] in b;
      SameLast(a, b);
      var initA, initB := a[..|a|-1], b[..|b|-1];
      forall r ensures Ascending(initA) && Ascending(initB) && (r in initA <==> r in initB) {
        WithoutLast(a, r);
        WithoutLast(b, r);
      }
      WithoutLast(a, a[0]);
      WithoutLast(b, b[0]);
      AscendingIsUnique(initA, initB);
      assert a == initA + [a[|a|-1]] && b == initB + [b[|b|-1]];
    }
  }

  lemma AscendingIsDistinct(rs: seq<Record>)
    requires Ascending(rs)
    ensures Distinct(rs)
  {
    forall i, j | 0 <= i < j < |rs| ensures rs[i].path != rs[j].path { LessTotal(rs[i].path, rs[j].path); }
  }

  /** `text` is the canonical snapshot of the records. */
  ghost predicate Canonical(text: string, records: map<string, Record>) {
    exists rs :: Ascending(rs) && MapOf(rs) == records && text == Listing(rs)
  }

  /** A set of records has at most one canonical snapshot, whatever order they were reported in. */
  lemma OneCanonicalText(a: string, b: string, records: map<string, Record>)
    requires Canonical(a, records) && Canonical(b, records)
    ensures a == b
  {
    var rs :| Ascending(rs) && MapOf(rs) == records && a == Listing(rs);
    var qs :| Ascending(qs) && MapOf(qs) == records && b == Listing(qs);
    AscendingIsDistinct(rs);
    AscendingIsDistinct(qs);
    MapOfRecords(rs);
    MapOfRecords(qs);
    AscendingIsUnique(rs, qs);
  }

  /** Two printable canonical snapshots are the same text exactly when they record the same tree, which is
      what comparing the snapshots before and after a copy relies on. */
  lemma CanonicalDecides(a: string, b: string, m: map<string, Record>, n: map<string, Record>)
    requires Canonical(a, m) && Canonical(b, n) && Parse(a) == Some(m) && Parse(b) == Some(n)
    ensures a == b <==> m == n
  {
    if m == n { OneCanonicalText(a, b, m); }
  }

  /** The canonical text of accepted records parses back to them. */
  lemma CanonicalParses(rs: seq<Record>, qs: seq<Record>)
    requires Printable(rs) && Ascending(qs) && MapOf(qs) == MapOf(rs)
    ensures Parse(Listing(qs)) == Some(MapOf(rs))
  {
    AscendingIsDistinct(qs);
    MapOfRecords(rs);
    MapOfRecords(qs);
    assert forall r :: r in rs <==> r in qs;
    assert rs[0] in qs;
    forall i | 0 <= i < |qs| ensures Plain(qs[i]) && Sound(qs[i]) {
      assert qs[i] in rs;
    }
    ParseListing(qs);
  }

  // ---- the code ----

  lemma DistinctGrows(rs: seq<Record>, r: Record)
    ensures Distinct(rs + [r]) <==> (Distinct(rs) && forall q :: q in rs ==> q.path != r.path)
  {
    var all := rs + [r];
    assert all[|rs|] == r && forall i :: 0 <= i < |rs| ==> all[i] == rs[i];
    if Distinct(all) {
      forall i, j | 0 <= i < j < |rs| ensures rs[i].path != rs[j].path { assert all[i].path != all[j].path; }
    }
  }

  lemma Duplicate(rs: seq<Record>, i: nat)
    requires i < |rs| && Distinct(rs[..i]) && rs[i].path in MapOf(rs[..i])
    ensures !Distinct(rs)
  {
    MapOfRecords(rs[..i]);
    var q := MapOf(rs[..i])[rs[i].path];
    var j :| 0 <= j < i && rs[..i][j] == q;
    assert rs[j].path == rs[i].path;
  }

  lemma FirstOfItsPath(rs: seq<Record>, i: nat)
    requires i < |rs| && Distinct(rs[..i]) && rs[i].path !in MapOf(rs[..i])
    ensures Distinct(rs[..i+1]) && MapOf(rs[..i+1]) == MapOf(rs[..i])[rs[i].path := rs[i]]
  {
    assert rs[..i+1] == rs[..i] + [rs[i]] && rs[..i+1][..i] == rs[..i];
    MapOfRecords(rs[..i]);
    DistinctGrows(rs[..i], rs[i]);
  }

  /** The records of a field list, refused at the first duplicate or malformed one. */
  method Collect(rs: seq<Record>) returns (records: Option<map<string, Record>>)
    ensures records == if Distinct(rs) && AllSound(rs) then Some(MapOf(rs)) else None
  {
    hide Sound, Distinct, MapOf;
    var found: map<string, Record> := map[];
    NoneYet();
    assert rs[..0] == [];
    for i := 0 to |rs|
      invariant found == MapOf(rs[..i]) && Distinct(rs[..i])
      invariant forall j :: 0 <= j < i ==> Sound(rs[j])
    {
      if rs[i].path in found {
        Duplicate(rs, i);
        return None;
      }
      if !Sound(rs[i]) { return None; }
      FirstOfItsPath(rs, i);
      found := found[rs[i].path := rs[i]];
    }
    assert rs[..|rs|] == rs;
    return Some(found);
  }

  lemma NoneYet()
    ensures Distinct([]) && MapOf([]) == map[]
  {
  }

  method FingerprintRecords(snapshot: string) returns (records: Option<map<string, Record>>)
    ensures records == Parse(snapshot)
  {
    hide Sound, Split;
    var fields := Split(snapshot);
    var n := |fields| - 1;
    if |fields| < 6 || fields[n] != [] || n % 5 != 0 { return None; }
    records := Collect(Records(fields[..n]));
  }

  function InsertByPath(rs: seq<Record>, r: Record): seq<Record> {
    if rs == [] then [r]
    else if Less(r.path, rs[0].path) then [r] + rs
    else [rs[0]] + InsertByPath(rs[1..], r)
  }

  lemma {:induction false} InsertKeepsAscending(rs: seq<Record>, r: Record)
    requires Ascending(rs) && forall q :: q in rs ==> q.path != r.path
    ensures Ascending(InsertByPath(rs, r))
    ensures forall q :: q in InsertByPath(rs, r) <==> q in rs || q == r
    decreases |rs|
  {
    if rs != [] {
      assert rs == [rs[0]] + rs[1..];
      if Less(r.path, rs[0].path) {
        forall j | 0 < j < |rs| ensures Less(r.path, rs[j].path) { LessTransitive(r.path, rs[0].path, rs[j].path); }
      } else {
        LessTotal(r.path, rs[0].path);
        InsertKeepsAscending(rs[1..], r);
        var rest := InsertByPath(rs[1..], r);
        forall j | 0 <= j < |rest| ensures Less(rs[0].path, rest[j].path) {
          assert rest[j] in rest;
        }
      }
    }
  }

  /** The records of a list in the order of their paths. */
  function SortByPath(rs: seq<Record>): seq<Record> {
    if rs == [] then [] else InsertByPath(SortByPath(rs[..|rs|-1]), rs[|rs|-1])
  }

  lemma {:induction false} SortIsAscending(rs: seq<Record>)
    requires Distinct(rs)
    ensures Ascending(SortByPath(rs)) && forall r :: r in SortByPath(rs) <==> r in rs
    decreases |rs|
  {
    if rs != [] {
      var init, last := rs[..|rs|-1], rs[|rs|-1];
      SortIsAscending(init);
      assert rs == init + [last];
      DistinctGrows(init, last);
      InsertKeepsAscending(SortByPath(init), last);
    }
  }

  /** The snapshot `remoteFingerprint` makes of the output of the pod. */
  function Snapshot(output: string): Option<string> {
    if Parse(output).None? then None
    else
      var fields := Split(output);
      Some(Listing(SortByPath(Records(fields[..|fields|-1]))))
  }

  lemma SnapshotOfListing(rs: seq<Record>)
    requires Printable(rs)
    ensures Snapshot(Listing(rs)) == Some(Listing(SortByPath(rs)))
  {
    ParseListing(rs);
    PlainFields(rs);
    SplitTerminated(AllFields(rs));
    assert Split(Listing(rs))[..|AllFields(rs)|] == AllFields(rs);
    RecordsOfFields(rs);
  }

  /** The same records listed in another order give the same snapshot. */
  lemma OrderDoesNotMatter(rs: seq<Record>, qs: seq<Record>)
    requires Printable(rs) && Printable(qs) && multiset(rs) == multiset(qs)
    ensures Snapshot(Listing(rs)) == Snapshot(Listing(qs)) != None
  {
    SnapshotOfListing(rs);
    SnapshotOfListing(qs);
    SortIsAscending(rs);
    SortIsAscending(qs);
    forall r ensures r in rs <==> r in qs {
      assert r in rs <==> r in multiset(rs);
      assert r in qs <==> r in multiset(qs);
    }
    AscendingIsUnique(SortByPath(rs), SortByPath(qs));
  }

  /** The keys in `sort.Strings` order, with their records. The map is walked in any order. */
  method SortRecords(records: map<string, Record>) returns (sorted: seq<Record>)
    requires forall k :: k in records ==> records[k].path == k
    ensures Ascending(sorted) && MapOf(sorted) == records
  {
    hide Less;
    sorted := [];
    var rest := records.Keys;
    while rest != {}
      invariant rest <= records.Keys && Ascending(sorted)
      invariant forall r :: r in sorted ==> r.path in records && records[r.path] == r && r.path !in rest
      invariant forall k :: k in records && k !in rest ==> records[k] in sorted
      decreases |rest|
    {
      var key :| key in rest;
      InsertKeepsAscending(sorted, records[key]);
      sorted := InsertByPath(sorted, records[key]);
      rest := rest - {key};
    }
    AscendingIsDistinct(sorted);
    SameMap(sorted, records);
  }

  lemma SameMap(rs: seq<Record>, records: map<string, Record>)
    requires Distinct(rs) && forall k :: k in records ==> records[k].path == k
    requires forall r :: r in rs ==> r.path in records && records[r.path] == r
    requires forall k :: k in records ==> records[k] in rs
    ensures MapOf(rs) == records
  {
    MapOfRecords(rs);
    forall k | k in records ensures k in MapOf(rs) && MapOf(rs)[k] == records[k] {
      assert records[k] in rs;
    }
  }

  method Render(rs: seq<Record>) returns (text: string)
    ensures text == Listing(rs)
  {
    text := "";
    for i := 0 to |rs|
      invariant text == Listing(rs[..i])
    {
      assert rs[..i+1] == rs[..i] + [rs[i]];
      ListingGrows(rs[..i], rs[i]);
      text := text + Terminated(FieldsOf(rs[i]));
    }
    assert rs[..|rs|] == rs;
  }

  lemma {:induction false} TerminatedConcat(a: seq<string>, b: seq<string>)
    ensures Terminated(a + b) == Terminated(a) + Terminated(b)
    decreases |b|
  {
    if b == [] {
      assert a + b == a;
    } else {
      TerminatedConcat(a, b[..|b|-1]);
      assert (a + b)[..|a + b|-1] == a + b[..|b|-1];
    }
  }

  lemma ListingGrows(rs: seq<Record>, r: Record)
    ensures Listing(rs + [r]) == Listing(rs) + Terminated(FieldsOf(r))
  {
    assert (rs + [r])[..|rs|] == rs;
    TerminatedConcat(AllFields(rs), FieldsOf(r));
  }

  lemma SortedMap(rs: seq<Record>, sorted: seq<Record>)
    requires Distinct(rs) && Ascending(sorted) && MapOf(sorted) == MapOf(rs)
    ensures sorted == SortByPath(rs)
  {
    SortIsAscending(rs);
    AscendingIsDistinct(sorted);
    MapOfRecords(rs);
    MapOfRecords(sorted);
    AscendingIsUnique(sorted, SortByPath(rs));
  }

  /** The canonical snapshot of a tree: it parses to the same records as the output it was made from. */
  method RemoteFingerprint(output: string) returns (snapshot: Option<string>)
    ensures snapshot == Snapshot(output)
    ensures snapshot.Some? <==> Parse(output).Some?
    ensures snapshot.Some? ==> Canonical(snapshot.value, Parse(output).value) && Parse(snapshot.value) == Parse(output)
  {
    var records := FingerprintRecords(output);
    if records.None? { return None; }
    ghost var qs := AcceptedAreListings(output);
    MapOfRecords(qs);
    var rs := SortRecords(records.value);
    var text := Render(rs);
    CanonicalParses(qs, rs);
    SnapshotOfListing(qs);
    SortedMap(qs, rs);
    return Some(text);
  }
}
