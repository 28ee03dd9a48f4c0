/** The pruning code on index lists and a keep array, and the event list it maintains. */
module EventLog {
  import opened Events

  /** The positions of one class, in order. */
  predicate ClassIndexes(events: seq<Event>, indexes: seq<nat>, routine: bool) {
    && (forall k :: 0 <= k < |indexes| ==> indexes[k] < |events| && Routine(events[indexes[k]]) == routine)
    && (forall i :: 0 <= i < |events| && Routine(events[i]) == routine ==> i in indexes)
    && (forall j, k :: 0 <= j < k < |indexes| ==> indexes[j] != indexes[k])
  }

  lemma ClassInRange(events: seq<Event>, indexes: seq<nat>, routine: bool)
    requires ClassIndexes(events, indexes, routine)
    ensures forall k :: 0 <= k < |indexes| ==> indexes[k] < |events|
    ensures forall j, k :: 0 <= j < k < |indexes| ==> indexes[j] != indexes[k]
  {
  }

  predicate NewestFirst(events: seq<Event>, indexes: seq<nat>) {
    (forall k :: 0 <= k < |indexes| ==> indexes[k] < |events|) &&
    forall j, k :: 0 <= j < k < |indexes| ==> Newer(events[indexes[j]], events[indexes[k]])
  }

  function InsertNewest(events: seq<Event>, sorted: seq<nat>, i: nat): (r: seq<nat>)
    requires i < |events| && forall k :: 0 <= k < |sorted| ==> sorted[k] < |events|
    ensures |r| == |sorted| + 1 && multiset(r) == multiset(sorted) + multiset{i}
  {
    if sorted == [] then [i]
    else
      assert sorted == [sorted[0]] + sorted[1..];
      if Newer(events[i], events[sorted[0]]) then [i] + sorted
      else [sorted[0]] + InsertNewest(events, sorted[1..], i)
  }

  lemma {:induction false} InsertKeepsNewestFirst(events: seq<Event>, sorted: seq<nat>, i: nat)
    requires i < |events| && NewestFirst(events, sorted)
    requires forall k :: 0 <= k < |sorted| ==> !SameKey(events[sorted[k]], events[i])
    ensures NewestFirst(events, InsertNewest(events, sorted, i))
    decreases |sorted|
  {
    var r := InsertNewest(events, sorted, i);
    if sorted != [] && !Newer(events[i], events[sorted[0]]) {
      InsertKeepsNewestFirst(events, sorted[1..], i);
      var rest := InsertNewest(events, sorted[1..], i);
      forall k | 0 <= k < |rest| ensures Newer(events[sorted[0]], events[rest[k]]) {
        assert rest[k] in multiset(rest);
        assert rest[k] == i || rest[k] in sorted[1..];
      }
    }
  }

  /** The list sorted newest first, one index inserted after the other. */
  function Sorted(events: seq<Event>, indexes: seq<nat>): (r: seq<nat>)
    requires forall k :: 0 <= k < |indexes| ==> indexes[k] < |events|
    ensures multiset(r) == multiset(indexes)
    ensures forall k :: 0 <= k < |r| ==> r[k] < |events|
  {
    if indexes == [] then []
    else
      var before := Sorted(events, indexes[..|indexes|-1]);
      var r := InsertNewest(events, before, indexes[|indexes|-1]);
      assert indexes == indexes[..|indexes|-1] + [indexes[|indexes|-1]];
      MultisetMembers(r, indexes);
      r
  }

  lemma MultisetMembers(a: seq<nat>, b: seq<nat>)
    requires multiset(a) == multiset(b)
    ensures |a| == |b|
    ensures forall k :: 0 <= k < |a| ==> a[k] in b
    ensures forall k :: 0 <= k < |b| ==> b[k] in a
  {
    assert |multiset(a)| == |a| && |multiset(b)| == |b|;
    forall k | 0 <= k < |a| ensures a[k] in b { assert a[k] in multiset(a); }
    forall k | 0 <= k < |b| ensures b[k] in a { assert b[k] in multiset(b); }
  }

  lemma {:induction false} SortedIsNewestFirst(events: seq<Event>, indexes: seq<nat>)
    requires KeyedSeq(events)
    requires forall k :: 0 <= k < |indexes| ==> indexes[k] < |events|
    requires forall j, k :: 0 <= j < k < |indexes| ==> indexes[j] != indexes[k]
    ensures NewestFirst(events, Sorted(events, indexes))
    decreases |indexes|
  {
    if indexes != [] {
      var init, last := indexes[..|indexes|-1], indexes[|indexes|-1];
      SortedIsNewestFirst(events, init);
      var before := Sorted(events, init);
      MultisetMembers(before, init);
      forall k | 0 <= k < |before| ensures !SameKey(events[before[k]], events[last]) {
        assert before[k] in init;
      }
      InsertKeepsNewestFirst(events, before, last);
    }
  }

  /** Sorting a class list gives a class list. */
  lemma SortedClass(events: seq<Event>, indexes: seq<nat>, routine: bool)
    requires KeyedSeq(events) && ClassIndexes(events, indexes, routine)
    ensures ClassIndexes(events, Sorted(events, indexes), routine) && NewestFirst(events, Sorted(events, indexes))
    ensures |Sorted(events, indexes)| == |indexes|
  {
    var sorted := Sorted(events, indexes);
    SortedIsNewestFirst(events, indexes);
    MultisetMembers(sorted, indexes);
    forall k | 0 <= k < |sorted| ensures sorted[k] < |events| && Routine(events[sorted[k]]) == routine {
      assert sorted[k] in indexes;
    }
    forall i | 0 <= i < |events| && Routine(events[i]) == routine ensures i in sorted {
      var k :| 0 <= k < |indexes| && indexes[k] == i;
    }
    forall j, k | 0 <= j < k < |sorted| ensures sorted[j] != sorted[k] {
      assert Newer(events[sorted[j]], events[sorted[k]]);
    }
  }

  /** `sort.Slice` with the newest-first comparison. */
  method SortNewest(events: seq<Event>, indexes: seq<nat>) returns (sorted: seq<nat>)
    requires forall k :: 0 <= k < |indexes| ==> indexes[k] < |events|
    requires KeyedSeq(events) && forall j, k :: 0 <= j < k < |indexes| ==> indexes[j] != indexes[k]
    ensures NewestFirst(events, sorted) && multiset(sorted) == multiset(indexes)
    ensures sorted == Sorted(events, indexes)
  {
    SortedIsNewestFirst(events, indexes);
    sorted := [];
    for n := 0 to |indexes|
      invariant sorted == Sorted(events, indexes[..n])
    {
      assert indexes[..n+1][..n] == indexes[..n];
      sorted := InsertNewest(events, sorted, indexes[n]);
    }
    assert indexes[..|indexes|] == indexes;
  }

  lemma {:induction false} PrefixSize(events: seq<Event>, sorted: seq<nat>, k: nat)
    requires NewestFirst(events, sorted) && k <= |sorted|
    ensures |set j | 0 <= j < k :: events[sorted[j]]| == k
  {
    var s := set j | 0 <= j < k :: events[sorted[j]];
    if k == 0 {
      assert s == {};
    } else {
      PrefixSize(events, sorted, k - 1);
      var t, last := set j | 0 <= j < k - 1 :: events[sorted[j]], events[sorted[k-1]];
      assert s == t + {last};
      forall x | x in t ensures x != last {
        var j :| 0 <= j < k - 1 && events[sorted[j]] == x;
        assert Newer(x, last);
      }
    }
  }

  /** In the sorted list, an event's position is the number of events ahead of it. */
  lemma RankIsPosition(events: seq<Event>, sorted: seq<nat>, routine: bool, k: nat)
    requires ClassIndexes(events, sorted, routine) && NewestFirst(events, sorted) && k < |sorted|
    ensures |AheadOf(Members(events), events[sorted[k]])| == k
  {
    var e := events[sorted[k]];
    var s := set j | 0 <= j < k :: events[sorted[j]];
    forall x | x in AheadOf(Members(events), e) ensures x in s {
      var i :| 0 <= i < |events| && events[i] == x;
      var j :| 0 <= j < |sorted| && sorted[j] == i;
      assert j < k;
    }
    forall x | x in s ensures x in AheadOf(Members(events), e) {
      var j :| 0 <= j < k && events[sorted[j]] == x;
      assert Routine(events[sorted[j]]) == routine;
    }
    assert AheadOf(Members(events), e) == s;
    PrefixSize(events, sorted, k);
  }

  /** Of one class, exactly the first `limit` of the sorted list have fewer than `limit` ahead of them. */
  lemma FirstOfSorted(events: seq<Event>, indexes: seq<nat>, routine: bool, limit: nat, i: nat)
    requires KeyedSeq(events) && ClassIndexes(events, indexes, routine) && i < |events|
    ensures |Sorted(events, indexes)| == |indexes|
    ensures var n := if |indexes| > limit then limit else |indexes|;
      i in Sorted(events, indexes)[..n] <==>
      Routine(events[i]) == routine && |AheadOf(Members(events), events[i])| < limit
  {
    SortedClass(events, indexes, routine);
    var sorted := Sorted(events, indexes);
    var n := if |indexes| > limit then limit else |indexes|;
    if Routine(events[i]) == routine {
      assert i in sorted;
      var k :| 0 <= k < |sorted| && sorted[k] == i;
      RankIsPosition(events, sorted, routine, k);
      if k < n { assert sorted[..n][k] == i; }
    }
  }

  method Mark(keep: array<bool>, chosen: seq<nat>)
    requires forall k :: 0 <= k < |chosen| ==> chosen[k] < keep.Length
    modifies keep
    ensures forall i :: 0 <= i < keep.Length ==> keep[i] == (old(keep[i]) || i in chosen)
  {
    for k := 0 to |chosen|
      invariant forall i :: 0 <= i < keep.Length ==> keep[i] == (old(keep[i]) || i in chosen[..k])
    {
      assert chosen[..k+1] == chosen[..k] + [chosen[k]];
      keep[chosen[k]] := true;
    }
    assert chosen[..|chosen|] == chosen;
  }

  /** Marks the newest `limit` of one class. */
  method MarkNewest(keep: array<bool>, events: seq<Event>, indexes: seq<nat>, limit: nat, ghost routine: bool)
    requires keep.Length == |events| && KeyedSeq(events) && ClassIndexes(events, indexes, routine)
    modifies keep
    ensures forall i :: 0 <= i < |events| ==>
      keep[i] == (old(keep[i]) || (Routine(events[i]) == routine && |AheadOf(Members(events), events[i])| < limit))
  {
    hide AheadOf, ClassIndexes;
    ClassInRange(events, indexes, routine);
    var sorted := SortNewest(events, indexes);
    forall i | 0 <= i < |events|
      ensures |sorted| == |indexes|
      ensures i in sorted[..if |indexes| > limit then limit else |indexes|] <==>
        Routine(events[i]) == routine && |AheadOf(Members(events), events[i])| < limit
    {
      FirstOfSorted(events, indexes, routine, limit, i);
    }
    MultisetMembers(sorted, indexes);
    var n := if |sorted| > limit then limit else |sorted|;
    Mark(keep, sorted[..n]);
  }

  lemma FewAhead(events: seq<Event>, indexes: seq<nat>, routine: bool, i: nat)
    requires ClassIndexes(events, indexes, routine) && KeyedSeq(events)
    requires i < |events| && Routine(events[i]) == routine
    ensures |AheadOf(Members(events), events[i])| < |indexes|
  {
    SortedClass(events, indexes, routine);
    var sorted := Sorted(events, indexes);
    assert i in sorted;
    var k :| 0 <= k < |sorted| && sorted[k] == i;
    RankIsPosition(events, sorted, routine, k);
  }

  /** Everything within its limit: nothing is ahead of too many. */
  lemma FewAreAllKept(events: seq<Event>, lifecycle: seq<nat>, routine: seq<nat>)
    requires ClassIndexes(events, lifecycle, false) && ClassIndexes(events, routine, true) && KeyedSeq(events)
    requires |lifecycle| <= MAX_LIFECYCLE && |routine| <= MAX_ROUTINE
    ensures Pruned(events) == events
  {
    hide ClassIndexes, AheadOf;
    forall i | 0 <= i < |events| ensures events[i] in Top(Members(events)) {
      FewAhead(events, if Routine(events[i]) then routine else lifecycle, Routine(events[i]), i);
    }
    KeepAll(events, Top(Members(events)));
  }

  lemma {:induction false} KeepAll(s: seq<Event>, kept: set<Event>)
    requires forall e <- s :: e in kept
    ensures Keep(s, kept) == s
    decreases |s|
  {
    if s != [] {
      KeepAll(s[..|s|-1], kept);
      assert s == s[..|s|-1] + [s[|s|-1]];
    }
  }

  /** The index lists of the two classes. */
  method Classify(events: seq<Event>) returns (lifecycle: seq<nat>, routine: seq<nat>)
    ensures ClassIndexes(events, lifecycle, false) && ClassIndexes(events, routine, true)
  {
    lifecycle, routine := [], [];
    for i := 0 to |events|
      invariant ClassIndexes(events[..i], lifecycle, false) && ClassIndexes(events[..i], routine, true)
    {
      assert events[..i+1] == events[..i] + [events[i]];
      if Routine(events[i]) {
        ClassGrows(events[..i], routine, true, events[i]);
        ClassKept(events[..i], lifecycle, false, events[i]);
        routine := routine + [i];
      } else {
        ClassGrows(events[..i], lifecycle, false, events[i]);
        ClassKept(events[..i], routine, true, events[i]);
        lifecycle := lifecycle + [i];
      }
    }
    assert events[..|events|] == events;
  }

  lemma ClassGrows(events: seq<Event>, indexes: seq<nat>, routine: bool, e: Event)
    requires ClassIndexes(events, indexes, routine) && Routine(e) == routine
    ensures ClassIndexes(events + [e], indexes + [|events|], routine)
  {
    var r := indexes + [|events|];
    forall i | 0 <= i < |events + [e]| && Routine((events + [e])[i]) == routine ensures i in r {
      if i == |events| { assert r[|indexes|] == i; }
    }
  }

  lemma ClassKept(events: seq<Event>, indexes: seq<nat>, routine: bool, e: Event)
    requires ClassIndexes(events, indexes, routine) && Routine(e) != routine
    ensures ClassIndexes(events + [e], indexes, routine)
  {
  }

  method PruneEvents(events: seq<Event>) returns (out: seq<Event>)
    requires KeyedSeq(events)
    ensures out == Pruned(events)
  {
    hide ClassIndexes, AheadOf;
    var lifecycle, routine := Classify(events);
    if |lifecycle| <= MAX_LIFECYCLE && |routine| <= MAX_ROUTINE {
      FewAreAllKept(events, lifecycle, routine);
      return events;
    }
    var keep := new bool[|events|](_ => false);
    MarkNewest(keep, events, lifecycle, MAX_LIFECYCLE, false);
    MarkNewest(keep, events, routine, MAX_ROUTINE, true);
    ghost var top := Top(Members(events));
    assert forall i :: 0 <= i < |events| ==> events[i] in Members(events);
    assert forall i :: 0 <= i < |events| ==> keep[i] == (events[i] in top);
    out := [];
    for i := 0 to |events|
      invariant out == Keep(events[..i], top)
    {
      assert events[..i+1][..i] == events[..i];
      if keep[i] { out := out + [events[i]]; }
    }
    assert events[..|events|] == events;
  }

  class Log {
    var events: seq<Event>
    ghost var added: seq<Event>     // everything ever added

    ghost predicate Valid()
      reads this
    {
      KeyedSeq(added) && events == Pruned(added)
    }

    constructor ()
      ensures Valid() && added == []
    {
      events, added := [], [];
    }

    /** The stored list is always the one pruning of everything ever added. */
    method AddEvent(e: Event)
      requires Valid() && forall i :: 0 <= i < |added| ==> !SameKey(added[i], e)
      modifies this
      ensures Valid() && added == old(added) + [e]
    {
      var next := added + [e];
      AddToPruned(added, e);
      PrunedIsKeyed(added, e);
      events := PruneEvents(events + [e]);
      added := added + [e];
    }
  }

  lemma PrunedIsKeyed(s: seq<Event>, e: Event)
    requires KeyedSeq(s) && forall i :: 0 <= i < |s| ==> !SameKey(s[i], e)
    ensures KeyedSeq(Pruned(s) + [e])
  {
    KeepIsKeyed(s, Top(Members(s)));
    KeepMembers(s, Top(Members(s)));
    forall i | 0 <= i < |Pruned(s)| ensures !SameKey(Pruned(s)[i], e) {
      assert Pruned(s)[i] in Members(Pruned(s));
    }
  }

  lemma {:induction false} KeepIsKeyed(s: seq<Event>, kept: set<Event>)
    requires KeyedSeq(s)
    ensures KeyedSeq(Keep(s, kept))
    decreases |s|
  {
    if s != [] {
      var init, last := s[..|s|-1], s[|s|-1];
      KeepIsKeyed(init, kept);
      KeepMembers(init, kept);
      forall i | 0 <= i < |Keep(init, kept)| ensures !SameKey(Keep(init, kept)[i], last) {
        assert Keep(init, kept)[i] in Members(Keep(init, kept));
        assert Keep(init, kept)[i] in init;
      }
    }
  }
}
