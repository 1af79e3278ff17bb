/** The newest-first order the home page and the project list put the backend's
    projects in: `sort((a, b) => Number(b.createdAt) - Number(a.createdAt))`. */
module ProjectOrder {
  import B = Backend

  /** Non-increasing creation time from front to back. */
  predicate NewestFirst(s: seq<B.Project>)
  {
    forall i, j :: 0 <= i < j < |s| ==> s[i].createdAt >= s[j].createdAt
  }

  /** Places `x` after every project at least as new as it; that keeps equal
      timestamps in their arrival order, as the stable `Array.prototype.sort` does. */
  function Insert(x: B.Project, s: seq<B.Project>): (r: seq<B.Project>)
    ensures |r| == |s| + 1
    ensures multiset(r) == multiset(s) + multiset{x}
    decreases |s|
  {
    if s == [] then [x]
    else if s[0].createdAt >= x.createdAt then
      assert s == [s[0]] + s[1..];
      [s[0]] + Insert(x, s[1..])
    else
      [x] + s
  }

  /** Inserting into a newest-first list keeps it newest first. */
  lemma {:induction false} InsertKeepsOrder(x: B.Project, s: seq<B.Project>)
    requires NewestFirst(s)
    ensures NewestFirst(Insert(x, s))
    decreases |s|
  {
    if s != [] && s[0].createdAt >= x.createdAt {
      InsertKeepsOrder(x, s[1..]);
      var rest := Insert(x, s[1..]);
      forall k | 0 <= k < |rest|
        ensures rest[k].createdAt <= s[0].createdAt
      {
        assert rest[k] in multiset(rest);
        if rest[k] != x {
          assert rest[k] in multiset(s[1..]);
          var m :| 0 <= m < |s[1..]| && s[1..][m] == rest[k];
          assert s[m + 1] == rest[k];
        }
      }
      assert Insert(x, s) == [s[0]] + rest;
    }
  }

  /** The projects newest first, as a permutation of the input. */
  function SortNewestFirst(s: seq<B.Project>): (r: seq<B.Project>)
    ensures |r| == |s|
    ensures multiset(r) == multiset(s)
    ensures NewestFirst(r)
    decreases |s|
  {
    if s == [] then []
    else
      assert s == s[..|s| - 1] + [s[|s| - 1]];
      InsertKeepsOrder(s[|s| - 1], SortNewestFirst(s[..|s| - 1]));
      Insert(s[|s| - 1], SortNewestFirst(s[..|s| - 1]))
  }

  function Min(a: nat, b: nat): nat
  {
    if a <= b then a else b
  }

  /** `slice(0, 4)` of the sorted projects: the latest four, or all when fewer. */
  function Latest4(s: seq<B.Project>): (r: seq<B.Project>)
    ensures |r| == Min(4, |s|)
    ensures NewestFirst(r)
    ensures multiset(r) <= multiset(s)
  {
    var sorted := SortNewestFirst(s);
    assert sorted == sorted[..Min(4, |s|)] + sorted[Min(4, |s|)..];
    sorted[..Min(4, |s|)]
  }

  /** A project left out of the latest four is no newer than any project in it, and
      the selection together with the left-out projects is the whole input. */
  lemma Latest4SplitsInput(s: seq<B.Project>)
    ensures var sorted := SortNewestFirst(s);
            var k := Min(4, |s|);
            Latest4(s) == sorted[..k]
            && multiset(sorted[..k]) + multiset(sorted[k..]) == multiset(s)
            && forall i, j :: 0 <= i < k <= j < |s| ==> sorted[j].createdAt <= sorted[i].createdAt
  {
    var sorted := SortNewestFirst(s);
    var k := Min(4, |s|);
    assert sorted == sorted[..k] + sorted[k..];
  }

  /** Sorting an already ordered list keeps its length and its order of creation times. */
  lemma {:induction false} InsertAtEnd(x: B.Project, s: seq<B.Project>)
    requires forall i :: 0 <= i < |s| ==> s[i].createdAt >= x.createdAt
    ensures Insert(x, s) == s + [x]
    decreases |s|
  {
    if s != [] {
      InsertAtEnd(x, s[1..]);
      assert [s[0]] + (s[1..] + [x]) == s + [x];
    }
  }

  /** An input already newest first is left exactly as it is. */
  lemma {:induction false} SortKeepsOrderedInput(s: seq<B.Project>)
    requires NewestFirst(s)
    ensures SortNewestFirst(s) == s
    decreases |s|
  {
    if s != [] {
      var front := s[..|s| - 1];
      assert NewestFirst(front);
      SortKeepsOrderedInput(front);
      InsertAtEnd(s[|s| - 1], front);
      assert front + [s[|s| - 1]] == s;
    }
  }
}
