/** Event retention: pruning after every insertion keeps what one pruning of everything would keep. */
module Events {
  datatype Kind = PlayerJoined | PlayerLimitReached | IntegrationTest | OtherKind

  datatype Event = Event(timestamp: int, id: nat, kind: Kind, playerCategory: bool, rest: nat)

  const MAX_LIFECYCLE := 2000
  const MAX_ROUTINE := 500

  predicate Routine(e: Event) {
    e.kind != OtherKind || e.playerCategory
  }

  predicate Newer(a: Event, b: Event) {
    if a.timestamp == b.timestamp then a.id > b.id else a.timestamp > b.timestamp
  }

  function Limit(e: Event): nat { if Routine(e) then MAX_ROUTINE else MAX_LIFECYCLE }

  /** `a` takes precedence over `b`: it is newer and competes for the same room. */
  predicate Ahead(a: Event, b: Event) { Routine(a) == Routine(b) && Newer(a, b) }

  predicate SameKey(a: Event, b: Event) { a.timestamp == b.timestamp && a.id == b.id }

  /** No two events share timestamp and ID. */
  predicate Keyed(s: set<Event>) { forall a, b :: a in s && b in s && SameKey(a, b) ==> a == b }

  predicate KeyedSeq(s: seq<Event>) { forall i, j :: 0 <= i < j < |s| ==> !SameKey(s[i], s[j]) }

  function AheadOf(s: set<Event>, e: Event): set<Event> { set x | x in s && Ahead(x, e) }

  /** The events with fewer than the limit ahead of them. */
  function Top(s: set<Event>): set<Event> { set e | e in s && |AheadOf(s, e)| < Limit(e) }

  function Keep(s: seq<Event>, kept: set<Event>): seq<Event> {
    if s == [] then []
    else Keep(s[..|s|-1], kept) + if s[|s|-1] in kept then [s[|s|-1]] else []
  }

  function Members(s: seq<Event>): set<Event> { set e | e in s }

  /** What pruning leaves: the newest of each class, in the order of insertion. */
  function Pruned(s: seq<Event>): seq<Event> { Keep(s, Top(Members(s))) }

  // ---- how many of a chain are at the top ----

  predicate Chain(n: set<Event>) {
    Keyed(n) && forall a, b :: a in n && b in n ==> Routine(a) == Routine(b)
  }

  lemma {:induction false} OldestExists(n: set<Event>, e: Event)
    requires Chain(n) && e in n
    ensures exists m :: m in n && AheadOf(n, m) == n - {m}
    decreases |AheadOf(n, e)|, 0
  {
    OldestFrom(n, e, n - AheadOf(n, e) - {e});
  }

  /** Walks down from `e` through `below`, the events not ahead of it. */
  lemma {:induction false} OldestFrom(n: set<Event>, e: Event, below: set<Event>)
    requires Chain(n) && e in n && below == n - AheadOf(n, e) - {e}
    ensures exists m :: m in n && AheadOf(n, m) == n - {m}
    decreases |below|
  {
    if below == {} {
      assert AheadOf(n, e) == n - {e};
    } else {
      var f :| f in below;
      var next := n - AheadOf(n, f) - {f};
      assert next < below by {
        assert f !in next;
        forall x | x in next ensures x in below { }
      }
      SmallerSet(next, below);
      OldestFrom(n, f, next);
    }
  }

  lemma SmallerSet(a: set<Event>, b: set<Event>)
    requires a < b
    ensures |a| < |b|
  {
    var x :| x in b && x !in a;
    assert b == a + (b - a) && x in b - a;
  }

  function FirstOf(n: set<Event>, k: nat): set<Event> { set y | y in n && |AheadOf(n, y)| < k }

  /** In a chain exactly the first k have fewer than k ahead of them. */
  lemma {:induction false} FirstOfChain(n: set<Event>, k: nat)
    requires Chain(n)
    ensures |FirstOf(n, k)| == if k < |n| then k else |n|
    decreases |n|
  {
    if n == {} {
      assert FirstOf(n, k) == {};
    } else {
      var e :| e in n;
      OldestExists(n, e);
      var m :| m in n && AheadOf(n, m) == n - {m};
      var rest := n - {m};
      FirstOfChain(rest, k);
      forall y | y in rest ensures AheadOf(n, y) == AheadOf(rest, y) {
        assert y in AheadOf(n, m);
      }
      assert n == rest + {m};
      FirstWithOldest(rest, m, k);
    }
  }

  lemma FirstWithOldest(rest: set<Event>, m: Event, k: nat)
    requires m !in rest && AheadOf(rest + {m}, m) == rest
    requires forall y <- rest :: AheadOf(rest + {m}, y) == AheadOf(rest, y)
    ensures |rest + {m}| == |rest| + 1
    ensures |FirstOf(rest + {m}, k)| == |FirstOf(rest, k)| + if |rest| < k then 1 else 0
  {
    hide AheadOf;
    assert FirstOf(rest + {m}, k) == FirstOf(rest, k) + if |rest| < k then {m} else {};
  }

  /** Of the events ahead of `e`, pruning keeps all or as many as the limit. */
  lemma AheadAfterPruning(s: set<Event>, e: Event)
    requires Keyed(s)
    ensures |AheadOf(Top(s), e)| == if Limit(e) < |AheadOf(s, e)| then Limit(e) else |AheadOf(s, e)|
  {
    var n := AheadOf(s, e);
    forall y | y in n ensures AheadOf(s, y) == AheadOf(n, y) && Limit(y) == Limit(e) { }
    assert AheadOf(Top(s), e) == FirstOf(n, Limit(e));
    FirstOfChain(n, Limit(e));
  }

  lemma AheadWithInserted(s: set<Event>, e: Event, x: Event)
    requires e !in s
    ensures |AheadOf(s + {e}, x)| == |AheadOf(s, x)| + if Ahead(e, x) then 1 else 0
  {
    if Ahead(e, x) {
      assert AheadOf(s + {e}, x) == AheadOf(s, x) + {e};
    } else {
      assert AheadOf(s + {e}, x) == AheadOf(s, x);
    }
  }

  /** Pruning before an insertion does not change what the pruning after it keeps. */
  lemma PruneThenInsert(s: set<Event>, e: Event)
    requires Keyed(s + {e}) && e !in s
    ensures Top(Top(s) + {e}) == Top(s + {e})
  {
    forall x | x in s + {e} ensures x in Top(Top(s) + {e}) <==> x in Top(s + {e}) {
      SurvivesAlike(s, e, x);
    }
  }

  lemma SurvivesAlike(s: set<Event>, e: Event, x: Event)
    requires Keyed(s + {e}) && e !in s && x in s + {e}
    ensures x in Top(Top(s) + {e}) <==> x in Top(s + {e})
  {
    assert Keyed(s);
    AheadAfterPruning(s, x);
    AheadWithInserted(s, e, x);
    AheadWithInserted(Top(s), e, x);
  }

  // ---- sequences ----

  lemma MembersConcat(a: seq<Event>, b: seq<Event>)
    ensures Members(a + b) == Members(a) + Members(b)
  {
    assert forall e :: e in a + b <==> e in a || e in b;
  }

  lemma {:induction false} KeepMembers(s: seq<Event>, kept: set<Event>)
    ensures Members(Keep(s, kept)) == Members(s) * kept
    decreases |s|
  {
    if s != [] {
      KeepMembers(s[..|s|-1], kept);
      assert forall e :: e in s <==> e in s[..|s|-1] || e == s[|s|-1];
      var tail := if s[|s|-1] in kept then [s[|s|-1]] else [];
      var before := Keep(s[..|s|-1], kept);
      assert Keep(s, kept) == before + tail;
      MembersConcat(before, tail);
    }
  }

  lemma {:induction false} KeepTwice(s: seq<Event>, a: set<Event>, b: set<Event>)
    requires Members(s) * b <= a
    ensures Keep(Keep(s, a), b) == Keep(s, b)
    decreases |s|
  {
    if s != [] {
      var init, last := s[..|s|-1], s[|s|-1];
      assert last in Members(s);
      assert Members(init) <= Members(s);
      KeepTwice(init, a, b);
      if last in a {
        var k := Keep(s, a);
        assert k[..|k|-1] == Keep(init, a) && k[|k|-1] == last;
      } else {
        assert last !in b;
        assert Keep(s, a) == Keep(init, a) && Keep(s, b) == Keep(init, b);
      }
    }
  }

  lemma KeyedMembers(s: seq<Event>)
    requires KeyedSeq(s)
    ensures Keyed(Members(s))
  {
  }

  /** Adding one event to a pruned list and pruning again keeps what pruning the full list would. */
  lemma AddToPruned(s: seq<Event>, e: Event)
    requires KeyedSeq(s + [e])
    ensures Pruned(Pruned(s) + [e]) == Pruned(s + [e])
  {
    assert (s + [e])[|s|] == e;
    forall i | 0 <= i < |s| ensures !SameKey(s[i], e) { assert (s + [e])[i] == s[i]; }
    forall i, j | 0 <= i < j < |s| ensures !SameKey(s[i], s[j]) { assert (s + [e])[i] == s[i] && (s + [e])[j] == s[j]; }
    KeyedMembers(s + [e]);
    var all := Members(s);
    assert Members(s + [e]) == all + {e};
    KeepMembers(s, Top(all));
    assert Members(Pruned(s) + [e]) == Members(Pruned(s)) + {e};
    assert Members(Pruned(s)) == Top(all);
    assert e !in all;
    PruneThenInsert(all, e);
    var top := Top(all + {e});
    InsertDemotes(all, e);
    assert (s + [e])[..|s|] == s;
    assert (Pruned(s) + [e])[..|Pruned(s)|] == Pruned(s);
    KeepTwice(s, Top(all), top);
  }

  /** An event once dropped never returns. */
  lemma InsertDemotes(s: set<Event>, e: Event)
    ensures Top(s + {e}) <= Top(s) + {e}
  {
    forall x | x in Top(s + {e}) && x != e ensures x in Top(s) {
      Grows(AheadOf(s, x), AheadOf(s + {e}, x));
    }
  }

  lemma Grows(a: set<Event>, b: set<Event>)
    requires a <= b
    ensures |a| <= |b|
  {
    assert b == a + (b - a);
  }

  /** Events added one at a time with pruning at each step. */
  function Streamed(s: seq<Event>): seq<Event> {
    if s == [] then [] else Pruned(Streamed(s[..|s|-1]) + [s[|s|-1]])
  }

  /** The stream keeps, in insertion order, exactly the newest of everything ever added. */
  lemma {:induction false} StreamIsOnePruning(s: seq<Event>)
    requires KeyedSeq(s)
    ensures Streamed(s) == Pruned(s)
    decreases |s|
  {
    if s != [] {
      StreamIsOnePruning(s[..|s|-1]);
      assert s[..|s|-1] + [s[|s|-1]] == s;
      AddToPruned(s[..|s|-1], s[|s|-1]);
    }
  }

  function OfClass(s: set<Event>, routine: bool): set<Event> { set e | e in s && Routine(e) == routine }

  lemma ClassIs(s: set<Event>, routine: bool)
    ensures OfClass(s, routine) == set e |
      e in s && (e.kind in {PlayerJoined, PlayerLimitReached, IntegrationTest} || e.playerCategory) == routine
  {
  }

  /** Joins, limits, tests and player events are routine; of them 500 are kept, of the rest 2000, or as many as
      there are; and every one kept has a later time, or the same time and a greater ID, than every one of its
      class that is dropped. */
  lemma KeptAreNewest(s: set<Event>, routine: bool)
    requires Keyed(s)
    ensures var rivals := set e |
        e in s && (e.kind in {PlayerJoined, PlayerLimitReached, IntegrationTest} || e.playerCategory) == routine;
      var limit := if routine then 500 else 2000;
      && |rivals * Top(s)| == (if limit < |rivals| then limit else |rivals|)
      && forall a, b :: a in rivals * Top(s) && b in rivals - Top(s) ==>
           a.timestamp > b.timestamp || (a.timestamp == b.timestamp && a.id > b.id)
  {
    var limit := if routine then MAX_ROUTINE else MAX_LIFECYCLE;
    var n := OfClass(s, routine);
    ClassIs(s, routine);
    assert n * Top(s) == OfClass(Top(s), routine);
    forall y | y in n ensures AheadOf(s, y) == AheadOf(n, y) && Limit(y) == limit { }
    assert OfClass(Top(s), routine) == FirstOf(n, limit);
    FirstOfChain(n, limit);
    forall a, b | a in OfClass(Top(s), routine) && b in n - Top(s) ensures Newer(a, b) {
      if !Newer(a, b) {
        forall x | x in AheadOf(s, b) ensures x in AheadOf(s, a) { }
        Grows(AheadOf(s, b), AheadOf(s, a));
      }
    }
  }
}
