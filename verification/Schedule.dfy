/** The visiting orders the world's phases walk: what it means for a schedule
    to be a permutation of the grid's indices, and how often it visits an index. */
module Schedule {

  /** A schedule visits every index below n exactly once: it has length n,
      stays below n, and repeats nothing. */
  predicate IsPermutation(s: seq<nat>, n: nat)
  {
    && |s| == n
    && (forall k :: 0 <= k < |s| ==> s[k] < n)
    && (forall a, b :: 0 <= a < b < |s| ==> s[a] != s[b])
  }

  /** How many times the schedule visits index j. */
  function Occurrences(s: seq<nat>, j: nat): nat
  {
    if |s| == 0 then 0
    else Occurrences(s[..|s| - 1], j) + (if s[|s| - 1] == j then 1 else 0)
  }

  /** An index is visited at least once exactly when it appears in the schedule. */
  lemma {:induction false} OccurrencesPositive(s: seq<nat>, j: nat)
    ensures Occurrences(s, j) > 0 <==> j in s
  {
    if |s| > 0 {
      var p := s[..|s| - 1];
      OccurrencesPositive(p, j);
      assert s == p + [s[|s| - 1]];
    }
  }

  /** A schedule without repetitions visits no index twice. */
  lemma {:induction false} OccurrencesAtMostOnce(s: seq<nat>, j: nat)
    requires forall a, b :: 0 <= a < b < |s| ==> s[a] != s[b]
    ensures Occurrences(s, j) <= 1
  {
    if |s| > 0 {
      var p := s[..|s| - 1];
      OccurrencesAtMostOnce(p, j);
      if s[|s| - 1] == j {
        LastIsNew(s);
        OccurrencesPositive(p, j);
      }
    }
  }

  /** A schedule visits v iff its prefix does or its last entry is v. */
  lemma MemberOfLastSplit(s: seq<nat>, v: nat)
    requires |s| > 0
    ensures (v in s) == (v in s[..|s| - 1] || v == s[|s| - 1])
  {
    assert s == s[..|s| - 1] + [s[|s| - 1]];
  }

  /** In a schedule without repetitions the last entry is not among the earlier ones. */
  lemma LastIsNew(s: seq<nat>)
    requires |s| > 0
    requires forall a, b :: 0 <= a < b < |s| ==> s[a] != s[b]
    ensures s[|s| - 1] !in s[..|s| - 1]
  {
    var p := s[..|s| - 1];
    forall a | 0 <= a < |p|
      ensures p[a] != s[|s| - 1]
    {
      assert p[a] == s[a];
    }
  }

  /** A permutation of the indices below n visits every one of them exactly once. */
  lemma OccursOnce(s: seq<nat>, n: nat, j: nat)
    requires IsPermutation(s, n)
    requires j < n
    ensures Occurrences(s, j) == 1
  {
    OccurrencesAtMostOnce(s, j);
    Covers(s, n, j);
    OccurrencesPositive(s, j);
  }

  /** Pigeonhole: n distinct values below n include every value below n. */
  lemma Covers(s: seq<nat>, n: nat, j: nat)
    requires IsPermutation(s, n)
    requires j < n
    ensures j in s
  {
    var values := Elements(s);
    var range := Below(n);
    DistinctCard(s);
    if j !in s {
      assert j in range;
      assert |range - {j}| == n - 1;
      assert values <= range - {j};
      SubsetCard(values, range - {j});
      assert false;
    }
  }

  /** The set of indices below n. */
  function Below(n: nat): (r: set<nat>)
    ensures forall x: nat :: x in r <==> x < n
    ensures |r| == n
  {
    if n == 0 then {} else Below(n - 1) + {n - 1}
  }

  /** The set of indices a schedule visits. */
  function Elements(s: seq<nat>): set<nat>
  {
    set x | x in s
  }

  lemma {:induction false} DistinctCard(s: seq<nat>)
    requires forall a, b :: 0 <= a < b < |s| ==> s[a] != s[b]
    ensures |Elements(s)| == |s|
  {
    if |s| > 0 {
      var p := s[..|s| - 1];
      var last := s[|s| - 1];
      DistinctCard(p);
      LastIsNew(s);
      assert s == p + [last];
      assert Elements(s) == Elements(p) + {last};
    }
  }

  lemma SubsetCard<T>(a: set<T>, b: set<T>)
    requires a <= b
    ensures |a| <= |b|
  {
    assert b == a + (b - a);
    assert a * (b - a) == {};
  }

}
