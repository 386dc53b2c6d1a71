/** The stable sort that orders documents before a multi-document apply. */
module StableSort {

  /** Put an element behind every element that does not rank above it. */
  function Insert<T>(rank: T -> nat, sorted: seq<T>, d: T): (r: seq<T>)
  {
    if sorted == [] then [d]
    else
      var n := |sorted| - 1;
      if rank(sorted[n]) <= rank(d) then sorted + [d]
      else Insert(rank, sorted[..n], d) + [sorted[n]]
  }

  function Sort<T>(rank: T -> nat, xs: seq<T>): (r: seq<T>)
  {
    if xs == [] then []
    else Insert(rank, Sort(rank, xs[..|xs| - 1]), xs[|xs| - 1])
  }

  ghost predicate Ranked<T>(rank: T -> nat, xs: seq<T>)
  {
    forall i, j :: 0 <= i < j < |xs| ==> rank(xs[i]) <= rank(xs[j])
  }

  /** The elements of one rank, in order. */
  function OfRank<T>(rank: T -> nat, xs: seq<T>, k: nat): (r: seq<T>)
  {
    if xs == [] then []
    else
      var n := |xs| - 1;
      OfRank(rank, xs[..n], k) + (if rank(xs[n]) == k then [xs[n]] else [])
  }

  lemma OfRankStep<T>(rank: T -> nat, xs: seq<T>, d: T, k: nat)
    ensures OfRank(rank, xs + [d], k) == OfRank(rank, xs, k) + (if rank(d) == k then [d] else [])
  {
    assert (xs + [d])[..|xs|] == xs;
  }

  lemma {:induction false} InsertIsStable<T>(rank: T -> nat, sorted: seq<T>, d: T, k: nat)
    ensures OfRank(rank, Insert(rank, sorted, d), k)
         == OfRank(rank, sorted, k) + (if rank(d) == k then [d] else [])
  {
    if sorted != [] {
      var n := |sorted| - 1;
      var last := sorted[n];
      if rank(last) <= rank(d) {
        OfRankStep(rank, sorted, d, k);
      } else {
        var front := Insert(rank, sorted[..n], d);
        InsertIsStable(rank, sorted[..n], d, k);
        OfRankStep(rank, front, last, k);
        assert OfRank(rank, sorted, k) == OfRank(rank, sorted[..n], k) + (if rank(last) == k then [last] else []);
        assert rank(last) == k ==> rank(d) != k;
      }
    }
  }

  lemma {:induction false} InsertMembers<T>(rank: T -> nat, sorted: seq<T>, d: T, x: T)
    ensures x in Insert(rank, sorted, d) <==> x in sorted || x == d
  {
    if sorted != [] {
      var n := |sorted| - 1;
      InsertMembers(rank, sorted[..n], d, x);
      assert x in sorted <==> x in sorted[..n] || x == sorted[n];
    }
  }

  lemma {:induction false} InsertRanked<T>(rank: T -> nat, sorted: seq<T>, d: T)
    requires Ranked(rank, sorted)
    ensures Ranked(rank, Insert(rank, sorted, d))
  {
    if sorted != [] {
      var n := |sorted| - 1;
      if rank(sorted[n]) > rank(d) {
        InsertRanked(rank, sorted[..n], d);
        var front := Insert(rank, sorted[..n], d);
        forall i | 0 <= i < |front|
          ensures rank(front[i]) <= rank(sorted[n])
        {
          InsertMembers(rank, sorted[..n], d, front[i]);
        }
      }
    }
  }

  /** The result is ordered by rank and keeps the elements of each rank, with their
      relative order and multiplicity: it is the stable sort. */
  lemma {:induction false} SortIsStable<T>(rank: T -> nat, xs: seq<T>, k: nat)
    ensures Ranked(rank, Sort(rank, xs))
    ensures OfRank(rank, Sort(rank, xs), k) == OfRank(rank, xs, k)
  {
    if xs != [] {
      var n := |xs| - 1;
      SortIsStable(rank, xs[..n], k);
      InsertRanked(rank, Sort(rank, xs[..n]), xs[n]);
      InsertIsStable(rank, Sort(rank, xs[..n]), xs[n], k);
    }
  }

  lemma {:induction false} SortMembers<T>(rank: T -> nat, xs: seq<T>, x: T)
    ensures x in Sort(rank, xs) <==> x in xs
  {
    if xs != [] {
      var n := |xs| - 1;
      SortMembers(rank, xs[..n], x);
      InsertMembers(rank, Sort(rank, xs[..n]), xs[n], x);
      assert x in xs <==> x in xs[..n] || x == xs[n];
    }
  }
}
