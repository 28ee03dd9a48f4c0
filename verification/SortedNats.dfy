/** Ascending lists of natural numbers: what `sort -u` makes of its lines. */
module SortedNats {
  function Elements(s: seq<nat>): set<nat> { set p | p in s }

  predicate Ascending(s: seq<nat>) {
    forall i, j :: 0 <= i < j < |s| ==> s[i] < s[j]
  }

  lemma ElementsConcat(a: seq<nat>, b: seq<nat>)
    ensures Elements(a + b) == Elements(a) + Elements(b)
  {
    assert forall p :: p in a + b <==> p in a || p in b;
  }

  function Insert(s: seq<nat>, p: nat): (t: seq<nat>) {
    if s == [] || p < s[0] then [p] + s
    else if p == s[0] then s
    else [s[0]] + Insert(s[1..], p)
  }

  lemma PrependSmallest(p: nat, t: seq<nat>)
    requires Ascending(t) && forall q <- Elements(t) :: p < q
    ensures Ascending([p] + t)
  {
    forall i | 0 <= i < |t| ensures p < t[i] { assert t[i] in Elements(t); }
  }

  lemma {:induction false} InsertElements(s: seq<nat>, p: nat)
    ensures Elements(Insert(s, p)) == Elements(s) + {p}
  {
    if s == [] || p < s[0] {
      ElementsConcat([p], s);
      assert Elements([p]) == {p};
    } else if p != s[0] {
      InsertElements(s[1..], p);
      ElementsConcat([s[0]], s[1..]);
      ElementsConcat([s[0]], Insert(s[1..], p));
      assert s == [s[0]] + s[1..];
    }
  }

  lemma {:induction false} InsertOrder(s: seq<nat>, p: nat)
    requires Ascending(s)
    ensures Ascending(Insert(s, p))
  {
    if s == [] || p < s[0] {
      PrependSmallest(p, s);
    } else if p != s[0] {
      InsertOrder(s[1..], p);
      InsertElements(s[1..], p);
      PrependSmallest(s[0], Insert(s[1..], p));
    }
  }

  /** `sort -u` over the lines of a file. */
  method SortUnique(lines: seq<nat>) returns (t: seq<nat>)
    ensures Ascending(t) && Elements(t) == Elements(lines)
  {
    t := [];
    for i := 0 to |lines|
      invariant Ascending(t) && Elements(t) == Elements(lines[..i])
    {
      InsertOrder(t, lines[i]);
      InsertElements(t, lines[i]);
      t := Insert(t, lines[i]);
      ElementsConcat(lines[..i], [lines[i]]);
      assert lines[..i+1] == lines[..i] + [lines[i]];
    }
    assert lines[..|lines|] == lines;
  }
}
