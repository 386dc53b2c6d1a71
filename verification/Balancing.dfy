/** Smooth weighted round-robin, and round-robin over a wrapping counter. */
module Balancing {
  import opened Options

  function Sum(s: seq<int>): int
  {
    if s == [] then 0 else Sum(s[..|s| - 1]) + s[|s| - 1]
  }

  lemma SumStep(s: seq<int>, x: int)
    ensures Sum(s + [x]) == Sum(s) + x
  {
    assert (s + [x])[..|s|] == s;
  }

  lemma {:induction false} SumUpdate(s: seq<int>, i: nat, x: int)
    requires i < |s|
    ensures Sum(s[i := x]) == Sum(s) - s[i] + x
  {
    var n := |s| - 1;
    if i < n {
      SumUpdate(s[..n], i, x);
      assert s[i := x][..n] == s[..n][i := x];
    } else {
      assert s[i := x][..n] == s[..n];
    }
  }

  function Add(a: seq<int>, b: seq<int>): (r: seq<int>)
    requires |a| == |b|
    ensures |r| == |a| && forall i | 0 <= i < |a| :: r[i] == a[i] + b[i]
  {
    seq(|a|, i requires 0 <= i < |a| => a[i] + b[i])
  }

  lemma {:induction false} SumAdd(a: seq<int>, b: seq<int>)
    requires |a| == |b|
    ensures Sum(Add(a, b)) == Sum(a) + Sum(b)
  {
    if a != [] {
      var n := |a| - 1;
      SumAdd(a[..n], b[..n]);
      assert Add(a, b)[..n] == Add(a[..n], b[..n]);
    }
  }

  /** A sum of entries bounded above by their limits, reaching the sum of the limits,
      reaches each limit. */
  lemma {:induction false} SumReachesLimits(a: seq<int>, limits: seq<int>)
    requires |a| == |limits| && (forall i | 0 <= i < |a| :: a[i] <= limits[i]) && Sum(a) >= Sum(limits)
    ensures a == limits
  {
    if a != [] {
      var n := |a| - 1;
      SumBounded(a[..n], limits[..n]);
      SumReachesLimits(a[..n], limits[..n]);
      assert a == a[..n] + [a[n]] && limits == limits[..n] + [limits[n]];
    }
  }

  lemma {:induction false} SumBounded(a: seq<int>, limits: seq<int>)
    requires |a| == |limits| && forall i | 0 <= i < |a| :: a[i] <= limits[i]
    ensures Sum(a) <= Sum(limits)
  {
    if a != [] {
      var n := |a| - 1;
      SumBounded(a[..n], limits[..n]);
    }
  }

  // ---------- One pick ----------

  /** `best` is the first index of the largest value. */
  ghost predicate FirstMax(s: seq<int>, best: nat)
  {
    && best < |s|
    && (forall i | 0 <= i < |s| :: s[i] <= s[best])
    && (forall i | 0 <= i < best :: s[i] < s[best])
  }

  /** The smooth weighted round-robin balancer: every pick raises each credit by its
      weight, takes the first largest credit and charges it the total weight. */
  class Weighted {
    const proxies: seq<string>
    const weights: seq<int>
    const total: int
    const current: array<int>

    ghost predicate Valid()
      reads current
    {
      |proxies| == |weights| == current.Length && ValidWeights(weights) && total == Sum(weights)
    }

    constructor (proxies: seq<string>, weights: seq<int>)
      requires |proxies| == |weights| && ValidWeights(weights)
      ensures Valid() && fresh(current) && this.proxies == proxies && this.weights == weights
      ensures current[..] == Zeros(|weights|)
    {
      var t := 0;
      for i := 0 to |weights|
        invariant t == Sum(weights[..i])
      {
        SumStep(weights[..i], weights[i]);
        assert weights[..i + 1] == weights[..i] + [weights[i]];
        t := t + weights[i];
      }
      assert weights[..|weights|] == weights;
      this.proxies, this.weights, total := proxies, weights, t;
      current := new int[|weights|](_ => 0);
    }

    /** None stands for the error "no proxy". */
    method Next() returns (proxy: Option<string>)
      requires Valid()
      modifies current
      ensures Valid()
      ensures |weights| == 0 ==> proxy == None && current[..] == old(current[..])
      ensures |weights| > 0 ==>
        exists best: nat ::
          best < |proxies| && IsPick(weights, old(current[..]), best, current[..]) && proxy == Some(proxies[best])
    {
      if |proxies| == 0 {
        return None;
      }
      ghost var before := current[..];
      var best := -1;
      for i := 0 to |proxies|
        invariant -1 <= best < i && (best == -1 <==> i == 0)
        invariant forall j | 0 <= j < i :: current[j] == before[j] + weights[j]
        invariant forall j | i <= j < |proxies| :: current[j] == before[j]
        invariant best >= 0 ==> FirstMax(current[..i], best)
      {
        current[i] := current[i] + weights[i];
        if best < 0 || current[i] > current[best] {
          best := i;
        }
      }
      assert current[..] == Add(before, weights);
      assert current[..|proxies|] == current[..];
      current[best] := current[best] - total;
      assert current[..] == Add(before, weights)[best := Add(before, weights)[best] - total];
      assert IsPick(weights, before, best, current[..]);
      proxy := Some(proxies[best]);
    }
  }

  ghost predicate ValidWeights(weights: seq<int>)
  {
    forall i | 0 <= i < |weights| :: weights[i] >= 1
  }

  function Zeros(n: nat): (z: seq<int>)
    ensures |z| == n && forall i | 0 <= i < n :: z[i] == 0
  {
    seq(n, _ => 0)
  }

  /** Picking index `best` takes the credits from `before` to `after`. */
  ghost predicate IsPick(weights: seq<int>, before: seq<int>, best: nat, after: seq<int>)
  {
    && |before| == |weights|
    && var raised := Add(before, weights);
       FirstMax(raised, best) && after == raised[best := raised[best] - Sum(weights)]
  }

  // ---------- Runs ----------

  /** A run of picks: which index each pick took, and the credits before every pick
      and after the last. */
  ghost predicate IsRun(weights: seq<int>, picks: seq<nat>, credits: seq<seq<int>>)
  {
    && |credits| == |picks| + 1 && (forall k | 0 <= k < |credits| :: |credits[k]| == |weights|)
    && credits[0] == Zeros(|weights|)
    && forall k | 0 <= k < |picks| :: IsPick(weights, credits[k], picks[k], credits[k + 1])
  }

  ghost predicate InRange(picks: seq<nat>, n: nat)
  {
    forall k | 0 <= k < |picks| :: picks[k] < n
  }

  /** How often each of `n` indices was picked. */
  ghost function Counts(picks: seq<nat>, n: nat): (c: seq<int>)
    requires InRange(picks, n)
    ensures |c| == n
  {
    if picks == [] then Zeros(n)
    else
      var k := |picks| - 1;
      var before := Counts(picks[..k], n);
      before[picks[k] := before[picks[k]] + 1]
  }

  lemma RunPicksInRange(weights: seq<int>, picks: seq<nat>, credits: seq<seq<int>>)
    requires IsRun(weights, picks, credits)
    ensures InRange(picks, |weights|)
  {
    forall k | 0 <= k < |picks|
      ensures picks[k] < |weights|
    {
      assert IsPick(weights, credits[k], picks[k], credits[k + 1]);
    }
  }

  lemma RunPrefix(weights: seq<int>, picks: seq<nat>, credits: seq<seq<int>>, n: nat)
    requires IsRun(weights, picks, credits) && n <= |picks|
    ensures IsRun(weights, picks[..n], credits[..n + 1])
  {
  }

  /** Credits sum to zero and no credit falls as low as minus the total weight. */
  ghost predicate Settled(weights: seq<int>, credit: seq<int>)
  {
    |credit| == |weights| && Sum(credit) == 0 && forall i | 0 <= i < |credit| :: credit[i] > -Sum(weights)
  }

  lemma {:induction false} SumZeros(n: nat)
    ensures Sum(Zeros(n)) == 0
  {
    if n > 0 {
      SumZeros(n - 1);
      assert Zeros(n)[..n - 1] == Zeros(n - 1);
    }
  }

  /** The largest entry of a sequence with positive sum is positive. */
  lemma {:induction false} MaxPositive(s: seq<int>, best: nat)
    requires FirstMax(s, best) && Sum(s) > 0
    ensures s[best] > 0
  {
    if s[best] <= 0 {
      SumBounded(s, Zeros(|s|));
      SumZeros(|s|);
    }
  }

  lemma {:induction false} SumPositive(weights: seq<int>)
    requires ValidWeights(weights) && weights != []
    ensures Sum(weights) > 0
  {
    var n := |weights| - 1;
    if n > 0 {
      SumPositive(weights[..n]);
    }
  }

  lemma PickSettled(weights: seq<int>, before: seq<int>, best: nat, after: seq<int>)
    requires ValidWeights(weights) && Settled(weights, before) && IsPick(weights, before, best, after)
    ensures Settled(weights, after)
  {
    var raised := Add(before, weights);
    SumAdd(before, weights);
    SumPositive(weights);
    MaxPositive(raised, best);
    SumUpdate(raised, best, raised[best] - Sum(weights));
  }

  lemma {:induction false} RunSettled(weights: seq<int>, picks: seq<nat>, credits: seq<seq<int>>, k: nat)
    requires ValidWeights(weights) && weights != [] && IsRun(weights, picks, credits) && k <= |picks|
    ensures Settled(weights, credits[k])
  {
    if k == 0 {
      SumZeros(|weights|);
      SumPositive(weights);
    } else {
      RunSettled(weights, picks, credits, k - 1);
      assert IsPick(weights, credits[k - 1], picks[k - 1], credits[k]);
      PickSettled(weights, credits[k - 1], picks[k - 1], credits[k]);
    }
  }

  lemma DueStep(k: int, w: int, total: int, c: int, before: int)
    requires before == k * w - total * c
    ensures before + w == (k + 1) * w - total * c
    ensures before + w - total == (k + 1) * w - total * (c + 1)
  {
    assert total * (c + 1) == total * c + total;
    assert (k + 1) * w == k * w + w;
  }

  lemma CountsStep(picks: seq<nat>, n: nat, k: nat, i: nat)
    requires InRange(picks, n) && k < |picks| && i < n
    ensures Counts(picks[..k + 1], n)[i] == Counts(picks[..k], n)[i] + if picks[k] == i then 1 else 0
  {
    assert picks[..k + 1][..k] == picks[..k];
  }

  lemma PickChanges(weights: seq<int>, before: seq<int>, best: nat, after: seq<int>, i: nat)
    requires IsPick(weights, before, best, after) && i < |weights|
    ensures |after| == |weights| == |before|
    ensures after[i] == before[i] + weights[i] - if i == best then Sum(weights) else 0
  {
  }

  /** A credit that gains `w` with every pick and pays `total` for every pick of `i`. */
  lemma {:induction false} DueAlong(picks: seq<nat>, n: nat, i: nat, w: int, total: int, credit: seq<int>, k: nat)
    requires InRange(picks, n) && i < n && k <= |picks| && |credit| > k && credit[0] == 0
    requires forall j | 0 <= j < k :: credit[j + 1] == credit[j] + w - if picks[j] == i then total else 0
    ensures credit[k] == k * w - total * Counts(picks[..k], n)[i]
  {
    if k > 0 {
      DueAlong(picks, n, i, w, total, credit, k - 1);
      CountsStep(picks, n, k - 1, i);
      DueStep(k - 1, w, total, Counts(picks[..k - 1], n)[i], credit[k - 1]);
    }
  }

  /** The credit of an index is what it was due minus what it was charged. */
  lemma CreditIsDue(weights: seq<int>, picks: seq<nat>, credits: seq<seq<int>>, k: nat, i: nat)
    requires IsRun(weights, picks, credits) && k <= |picks| && i < |weights|
    requires InRange(picks, |weights|)
    ensures |credits[k]| == |weights|
    ensures credits[k][i] == k * weights[i] - Sum(weights) * Counts(picks[..k], |weights|)[i]
  {
    var credit := seq(k + 1, j requires 0 <= j <= k => credits[j][i]);
    forall j | 0 <= j < k
      ensures credit[j + 1] == credit[j] + weights[i] - if picks[j] == i then Sum(weights) else 0
    {
      PickChanges(weights, credits[j], picks[j], credits[j + 1], i);
    }
    DueAlong(picks, |weights|, i, weights[i], Sum(weights), credit, k);
  }

  lemma {:induction false} CountsSum(picks: seq<nat>, n: nat)
    requires InRange(picks, n)
    ensures Sum(Counts(picks, n)) == |picks|
  {
    if picks == [] {
      SumZeros(n);
    } else {
      var k := |picks| - 1;
      CountsSum(picks[..k], n);
      var before := Counts(picks[..k], n);
      SumUpdate(before, picks[k], before[picks[k]] + 1);
    }
  }

  /** At every moment no proxy is ahead of its share by a whole pick: after k picks,
      count * total < k * weight + total. */
  lemma NeverAPickAhead(weights: seq<int>, picks: seq<nat>, credits: seq<seq<int>>, i: nat)
    requires ValidWeights(weights) && IsRun(weights, picks, credits) && i < |weights|
    ensures InRange(picks, |weights|)
    ensures Sum(weights) * Counts(picks, |weights|)[i] < |picks| * weights[i] + Sum(weights)
  {
    RunPicksInRange(weights, picks, credits);
    assert picks[..|picks|] == picks;
    RunSettled(weights, picks, credits, |picks|);
    CreditIsDue(weights, picks, credits, |picks|, i);
  }

  lemma AtMostShare(total: int, w: int, c: int)
    requires total > 0 && total * c < total * w + total
    ensures c <= w
  {
    assert total * (w + 1) == total * w + total;
  }

  /** One full round: in the first `total` picks every proxy is picked exactly as often
      as its weight, and the credits are back at zero. */
  lemma ExactShares(weights: seq<int>, picks: seq<nat>, credits: seq<seq<int>>)
    requires ValidWeights(weights) && weights != [] && IsRun(weights, picks, credits) && |picks| == Sum(weights)
    ensures InRange(picks, |weights|)
    ensures Counts(picks, |weights|) == weights
    ensures credits[|picks|] == Zeros(|weights|)
  {
    RunPicksInRange(weights, picks, credits);
    var total, counts := Sum(weights), Counts(picks, |weights|);
    SumPositive(weights);
    forall i | 0 <= i < |weights|
      ensures counts[i] <= weights[i]
    {
      NeverAPickAhead(weights, picks, credits, i);
      AtMostShare(total, weights[i], counts[i]);
    }
    CountsSum(picks, |weights|);
    SumReachesLimits(counts, weights);
    assert picks[..|picks|] == picks;
    RunSettled(weights, picks, credits, |picks|);
    forall i | 0 <= i < |weights|
      ensures credits[|picks|][i] == 0
    {
      CreditIsDue(weights, picks, credits, |picks|, i);
    }
  }

  lemma PickUnique(weights: seq<int>, before: seq<int>, a: nat, after: seq<int>, a': nat, after': seq<int>)
    requires IsPick(weights, before, a, after) && IsPick(weights, before, a', after')
    ensures a == a' && after == after'
  {
  }

  /** Picks repeat with period `total`. */
  lemma {:induction false} PicksRepeat(weights: seq<int>, picks: seq<nat>, credits: seq<seq<int>>, total: nat, k: nat)
    requires ValidWeights(weights) && weights != [] && IsRun(weights, picks, credits)
    requires total == Sum(weights) && k + total <= |picks|
    ensures credits[k + total] == credits[k]
    ensures k + total < |picks| ==> picks[k + total] == picks[k]
  {
    if k == 0 {
      RunPrefix(weights, picks, credits, total);
      ExactShares(weights, picks[..total], credits[..total + 1]);
    } else {
      PicksRepeat(weights, picks, credits, total, k - 1);
      PickUnique(weights, credits[k - 1], picks[k - 1], credits[k], picks[k - 1 + total], credits[k + total]);
    }
    if k + total < |picks| {
      PickUnique(weights, credits[k], picks[k], credits[k + 1], picks[k + total], credits[k + 1 + total]);
    }
  }

  /** Moving a window of repeating picks by one does not change its counts. */
  lemma WindowSlides(picks: seq<nat>, n: nat, k: nat, total: nat)
    requires InRange(picks, n) && total > 0 && k + 1 + total <= |picks|
    requires picks[k + total] == picks[k]
    ensures Counts(picks[k + 1..k + 1 + total], n) == Counts(picks[k..k + total], n)
  {
    var middle := picks[k + 1..k + total];
    assert picks[k..k + total] == [picks[k]] + middle;
    assert picks[k + 1..k + 1 + total] == middle + [picks[k]];
    CountsRotate(picks[k], middle, n);
  }

  lemma FirstWindowExact(weights: seq<int>, picks: seq<nat>, credits: seq<seq<int>>, total: nat)
    requires ValidWeights(weights) && weights != [] && IsRun(weights, picks, credits)
    requires total == Sum(weights) && total <= |picks| && InRange(picks, |weights|)
    ensures Counts(picks[0..total], |weights|) == weights
  {
    RunPrefix(weights, picks, credits, total);
    ExactShares(weights, picks[..total], credits[..total + 1]);
    assert picks[0..total] == picks[..total];
  }

  lemma {:induction false} WindowsSlide(picks: seq<nat>, n: nat, total: nat, k: nat)
    requires InRange(picks, n) && total > 0 && k + total <= |picks|
    requires forall j | 0 <= j < k :: picks[j + total] == picks[j]
    ensures Counts(picks[k..k + total], n) == Counts(picks[0..total], n)
  {
    if k > 0 {
      WindowsSlide(picks, n, total, k - 1);
      WindowSlides(picks, n, k - 1, total);
    }
  }

  /** Every window of `total` consecutive picks, wherever it starts, picks every proxy
      exactly as often as its weight. */
  lemma EveryWindowExact(weights: seq<int>, picks: seq<nat>, credits: seq<seq<int>>, total: nat, k: nat)
    requires ValidWeights(weights) && weights != [] && IsRun(weights, picks, credits)
    requires total == Sum(weights) && k + total <= |picks|
    ensures InRange(picks, |weights|) && Counts(picks[k..k + total], |weights|) == weights
  {
    RunPicksInRange(weights, picks, credits);
    SumPositive(weights);
    FirstWindowExact(weights, picks, credits, total);
    forall j | 0 <= j < k
      ensures picks[j + total] == picks[j]
    {
      PicksRepeat(weights, picks, credits, total, j);
    }
    WindowsSlide(picks, |weights|, total, k);
  }

  /** Counting does not depend on whether a pick comes first or last. */
  lemma {:induction false} CountsRotate(p: nat, middle: seq<nat>, n: nat)
    requires p < n && InRange(middle, n)
    ensures Counts([p] + middle, n) == Counts(middle + [p], n)
  {
    if middle == [] {
      assert [p] + middle == middle + [p];
    } else {
      var k := |middle| - 1;
      var front, last := middle[..k], middle[k];
      CountsRotate(p, front, n);
      assert ([p] + middle)[..k + 1] == [p] + front;
      assert (middle + [p])[..k + 1] == middle;
      assert (front + [p])[..k] == front;
    }
  }

  // ---------- Equal weights ----------

  /** The credit of index `i` of `n` when the turn is at `r`, and every weight is `w`. */
  function TurnCredit(w: int, n: int, r: int, i: int): int
  {
    if i < r then w * (r - n) else w * r
  }

  ghost predicate AtTurn(w: int, n: nat, r: nat, credit: seq<int>)
  {
    |credit| == n && forall i | 0 <= i < n :: credit[i] == TurnCredit(w, n, r, i)
  }

  lemma {:induction false} SumOfEqual(weights: seq<int>, w: int)
    requires forall i | 0 <= i < |weights| :: weights[i] == w
    ensures Sum(weights) == w * |weights|
  {
    if weights != [] {
      var n := |weights| - 1;
      SumOfEqual(weights[..n], w);
      assert w * (n + 1) == w * n + w;
    }
  }

  lemma RaisedAtTurn(w: int, n: nat, r: nat, i: nat)
    requires w >= 1 && r < n && i < n
    ensures TurnCredit(w, n, r, i) + w == if i < r then w * (r + 1 - n) else w * (r + 1)
    ensures w * (r + 1 - n) <= w * (r + 1) - w * n && w * (r + 1) - w * n <= w * (r + 1) - w
  {
    assert w * (r + 1) == w * r + w;
    assert w * (r + 1 - n) == w * (r - n) + w;
    assert w * (r + 1 - n) == w * (r + 1) - w * n;
    MultipleAtLeast(w, n);
  }

  /** At turn `r` index `r` is picked, and the turn moves on. */
  lemma TurnMovesOn(weights: seq<int>, w: int, r: nat, before: seq<int>, best: nat, after: seq<int>)
    requires w >= 1 && r < |weights| && (forall i | 0 <= i < |weights| :: weights[i] == w)
    requires AtTurn(w, |weights|, r, before) && IsPick(weights, before, best, after)
    ensures best == r && AtTurn(w, |weights|, (r + 1) % |weights|, after)
  {
    var n := |weights|;
    var raised := Add(before, weights);
    forall i | 0 <= i < n
      ensures raised[i] == if i < r then w * (r + 1 - n) else w * (r + 1)
    {
      RaisedAtTurn(w, n, r, i);
    }
    RaisedAtTurn(w, n, r, r);
    FirstLargest(raised, r, w * (r + 1 - n), w * (r + 1), best);
    SumOfEqual(weights, w);
    AfterTurn(w, n, r);
  }

  lemma FirstLargest(s: seq<int>, r: nat, low: int, high: int, best: nat)
    requires r < |s| && low < high && FirstMax(s, best)
    requires forall i | 0 <= i < |s| :: s[i] == if i < r then low else high
    ensures best == r
  {
    assert s[r] <= s[best];
  }

  lemma AfterTurn(w: int, n: nat, r: nat)
    requires w >= 1 && r < n
    ensures w * (r + 1) - w * n == w * (r + 1 - n)
    ensures (r + 1) % n == if r + 1 == n then 0 else r + 1
    ensures r + 1 == n ==> w * (r + 1 - n) == 0
  {
    if r + 1 == n {
      ModUnique(r + 1, n, 1, 0);
    } else {
      ModUnique(r + 1, n, 0, r + 1);
    }
  }

  lemma {:induction false} TurnAfter(weights: seq<int>, w: int, picks: seq<nat>, credits: seq<seq<int>>, k: nat)
    requires w >= 1 && weights != [] && (forall i | 0 <= i < |weights| :: weights[i] == w)
    requires IsRun(weights, picks, credits) && k <= |picks|
    ensures AtTurn(w, |weights|, k % |weights|, credits[k])
  {
    var n := |weights|;
    if k == 0 {
      ModUnique(0, n, 0, 0);
      assert w * 0 == 0;
    } else {
      TurnAfter(weights, w, picks, credits, k - 1);
      assert IsPick(weights, credits[k - 1], picks[k - 1], credits[k]);
      TurnMovesOn(weights, w, (k - 1) % n, credits[k - 1], picks[k - 1], credits[k]);
      ModStep(k - 1, n);
    }
  }

  /** Members of equal weight take turns in their order. */
  lemma EqualWeightsTakeTurns(weights: seq<int>, w: int, picks: seq<nat>, credits: seq<seq<int>>, k: nat)
    requires w >= 1 && weights != [] && (forall i | 0 <= i < |weights| :: weights[i] == w)
    requires IsRun(weights, picks, credits) && k < |picks|
    ensures picks[k] == k % |weights|
  {
    TurnAfter(weights, w, picks, credits, k);
    assert IsPick(weights, credits[k], picks[k], credits[k + 1]);
    TurnMovesOn(weights, w, k % |weights|, credits[k], picks[k], credits[k + 1]);
  }

  // ---------- Round-robin over a 32-bit counter ----------

  /** The counter wraps to zero here. */
  const WRAP := 0x1_0000_0000

  /** The index that call number `n` (from 0) returns. */
  function RoundRobinPick(n: nat, window: nat): (i: nat)
    requires window > 0
  {
    n % WRAP % window
  }

  class RoundRobin {
    const proxies: seq<string>
    const window: nat
    var counter: nat
    ghost var calls: nat

    ghost predicate Valid()
      reads this
    {
      window == |proxies| % WRAP && window <= |proxies| && counter == calls % WRAP
    }

    constructor (proxies: seq<string>)
      ensures Valid() && this.proxies == proxies && calls == 0
    {
      this.proxies, window, counter, calls := proxies, |proxies| % WRAP, 0, 0;
    }

    method Next() returns (proxy: Option<string>)
      requires Valid()
      modifies this
      ensures Valid()
      ensures window == 0 ==> proxy == None && calls == old(calls)
      ensures window > 0 ==>
        calls == old(calls) + 1 && proxy == Some(proxies[RoundRobinPick(old(calls), window)])
    {
      if window == 0 {
        return None;
      }
      // the wrapped successor minus one, in 32 bits, is the previous value
      var val := counter % window;
      ModStep(calls, WRAP);
      counter := (counter + 1) % WRAP;
      calls := calls + 1;
      proxy := Some(proxies[val]);
    }
  }

  lemma MultipleAtLeast(w: int, d: int)
    requires w > 0
    ensures d >= 1 ==> w * d >= w
    ensures w * -d == -(w * d)
  {
    if d >= 1 {
      assert w * d == w + w * (d - 1);
    }
  }

  lemma SmallMultiple(w: int, d: int)
    requires w > 0 && -w < w * d < w
    ensures d == 0
  {
    MultipleAtLeast(w, d);
    MultipleAtLeast(w, -d);
  }

  lemma ModUnique(x: int, w: int, q: int, r: int)
    requires w > 0 && x == q * w + r && 0 <= r < w
    ensures x % w == r
  {
    var p := x / w;
    assert x == w * p + x % w;
    assert w * (p - q) == w * p - w * q;
    SmallMultiple(w, p - q);
  }

  lemma ModStep(m: nat, w: nat)
    requires w > 0
    ensures (m + 1) % w == (m % w + 1) % w
  {
    var q, r := m / w, m % w;
    assert m == q * w + r;
    if r + 1 < w {
      ModUnique(m + 1, w, q, r + 1);
      ModUnique(r + 1, w, 0, r + 1);
    } else {
      assert (q + 1) * w == q * w + w;
      ModUnique(m + 1, w, q + 1, 0);
      ModUnique(w, w, 1, 0);
    }
  }

  /** Two consecutive calls move on by exactly one proxy, cyclically, except where the
      counter wraps; there they do so if and only if the number of proxies divides
      2^32. */
  lemma RotatesUnlessWrapping(n: nat, window: nat)
    requires window > 0
    ensures RoundRobinPick(n + 1, window) == (RoundRobinPick(n, window) + 1) % window
       <==> n % WRAP != WRAP - 1 || WRAP % window == 0
  {
    var m := n % WRAP;
    ModStep(m, window);
    if m == WRAP - 1 {
      assert (n + 1) % WRAP == 0;
      ModUnique(0, window, 0, 0);
    } else {
      assert (n + 1) % WRAP == m + 1;
    }
  }

  /** With three proxies the first one is returned twice in a row at the wrap. */
  lemma SameProxyTwice()
    ensures RoundRobinPick(WRAP - 1, 3) == RoundRobinPick(WRAP, 3) == 0
  {
  }
}
