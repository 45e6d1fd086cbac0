/** The reconcile-duration histogram: bounded buckets kept apart, accumulated when they
    are rendered. Counters are 64-bit and wrap. */
module DurationHistograms {

  const BOUNDARIES: seq<nat> := [5, 10, 25, 50, 100, 250, 500, 1000, 2500, 5000, 10000]

  const U64_RANGE: nat := 0x1_0000_0000_0000_0000

  type U64 = x: nat | x < U64_RANGE

  function WrappingAdd(a: U64, b: U64): U64 {
    (a + b) % U64_RANGE
  }

  /** Wrapping after every addition is wrapping once at the end. */
  lemma WrappingAddIsModular(a: nat, b: nat)
    ensures WrappingAdd(a % U64_RANGE, b % U64_RANGE) == (a + b) % U64_RANGE
  {
  }

  lemma WrappingAddOfOne(a: nat, b: U64)
    ensures WrappingAdd(a % U64_RANGE, b) == (a + b) % U64_RANGE
  {
    WrappingAddIsModular(a, b);
  }

  // ---------------------------------------------------------------------
  // What the histogram stands for
  // ---------------------------------------------------------------------

  /** How many observations are at most `limit`. */
  function AtMost(observed: seq<U64>, limit: nat): (n: nat)
    ensures n <= |observed|
  {
    if observed == [] then 0
    else AtMost(observed[..|observed| - 1], limit) + (if observed[|observed| - 1] <= limit then 1 else 0)
  }

  function Total(observed: seq<U64>): nat {
    if observed == [] then 0 else Total(observed[..|observed| - 1]) + observed[|observed| - 1]
  }

  /** The observations up to and including bucket `i`; the last bucket takes all. */
  function UpTo(observed: seq<U64>, i: nat): nat
    requires i <= |BOUNDARIES|
  {
    if i == |BOUNDARIES| then |observed| else AtMost(observed, BOUNDARIES[i])
  }

  /** The observations in bucket `i` alone. */
  function Inside(observed: seq<U64>, i: nat): int
    requires i <= |BOUNDARIES|
  {
    UpTo(observed, i) - (if i == 0 then 0 else UpTo(observed, i - 1))
  }

  function Positions(observed: seq<U64>, limit: nat): set<nat> {
    set k: nat | k < |observed| && observed[k] <= limit
  }

  /** The count, told by positions. */
  lemma {:induction false} AtMostExactly(observed: seq<U64>, limit: nat)
    ensures AtMost(observed, limit) == |Positions(observed, limit)|
  {
    if observed == [] {
      assert Positions(observed, limit) == {};
    } else {
      var n := |observed| - 1;
      AtMostExactly(observed[..n], limit);
      assert Positions(observed, limit)
          == Positions(observed[..n], limit) + if observed[n] <= limit then {n} else {};
    }
  }

  lemma {:induction false} AtMostGrowsWithLimit(observed: seq<U64>, low: nat, high: nat)
    requires low <= high
    ensures AtMost(observed, low) <= AtMost(observed, high)
  {
    if observed != [] {
      AtMostGrowsWithLimit(observed[..|observed| - 1], low, high);
    }
  }

  lemma BoundariesAscend(i: nat, j: nat)
    requires i <= j < |BOUNDARIES|
    ensures BOUNDARIES[i] <= BOUNDARIES[j]
  {
  }

  lemma UpToGrows(observed: seq<U64>, i: nat, j: nat)
    requires i <= j <= |BOUNDARIES|
    ensures UpTo(observed, i) <= UpTo(observed, j)
  {
    if j < |BOUNDARIES| {
      BoundariesAscend(i, j);
      AtMostGrowsWithLimit(observed, BOUNDARIES[i], BOUNDARIES[j]);
    }
  }

  /** The bucket an observation falls into: the first whose boundary it does not
      exceed, or the last. */
  predicate FallsInto(value: U64, i: nat)
    requires i <= |BOUNDARIES|
  {
    && (i < |BOUNDARIES| ==> value <= BOUNDARIES[i])
    && (forall j | 0 <= j < i :: value > BOUNDARIES[j])
  }

  /** An observation adds one to its own bucket and to no other. */
  lemma ObservationCountsOnce(observed: seq<U64>, value: U64, i: nat, k: nat)
    requires i <= |BOUNDARIES| && k <= |BOUNDARIES| && FallsInto(value, i)
    ensures Inside(observed + [value], k) == Inside(observed, k) + (if k == i then 1 else 0)
  {
    assert (observed + [value])[..|observed|] == observed;
    if k < |BOUNDARIES| {
      BelowItsBoundary(value, i, k);
    }
    if k > 0 {
      BelowItsBoundary(value, i, k - 1);
    }
  }

  lemma ObservationCountsModularly(observed: seq<U64>, value: U64, i: nat, k: nat)
    requires i <= |BOUNDARIES| && k <= |BOUNDARIES| && FallsInto(value, i)
    ensures Inside(observed + [value], k) % U64_RANGE
         == if k == i then WrappingAdd(Inside(observed, k) % U64_RANGE, 1) else Inside(observed, k) % U64_RANGE
  {
    ObservationCountsOnce(observed, value, i, k);
    InsideIsCount(observed, k);
    WrappingAddOfOne(Inside(observed, k), 1);
  }

  lemma TotalOfOneMore(observed: seq<U64>, value: U64)
    ensures Total(observed + [value]) == Total(observed) + value
  {
    assert (observed + [value])[..|observed|] == observed;
  }

  lemma BelowItsBoundary(value: U64, i: nat, k: nat)
    requires i <= |BOUNDARIES| && k < |BOUNDARIES| && FallsInto(value, i)
    ensures value <= BOUNDARIES[k] <==> i <= k
  {
    if i <= k {
      BoundariesAscend(i, k);
    }
  }

  /** As long as there are fewer than 2^64 observations, the cumulative lines are the
      counts themselves and never decrease. */
  lemma ExactWhileItFits(observed: seq<U64>, cumulative: seq<U64>)
    requires |observed| < U64_RANGE && |cumulative| == |BOUNDARIES| + 1
    requires forall i | 0 <= i <= |BOUNDARIES| :: cumulative[i] == UpTo(observed, i) % U64_RANGE
    ensures forall i | 0 <= i <= |BOUNDARIES| :: cumulative[i] == UpTo(observed, i)
    ensures forall i, j | 0 <= i <= j <= |BOUNDARIES| :: cumulative[i] <= cumulative[j]
  {
    forall i | 0 <= i <= |BOUNDARIES|
      ensures cumulative[i] == UpTo(observed, i)
    {
      UpToGrows(observed, i, |BOUNDARIES|);
    }
    forall i, j | 0 <= i <= j <= |BOUNDARIES|
      ensures cumulative[i] <= cumulative[j]
    {
      UpToGrows(observed, i, j);
    }
  }

  // ---------------------------------------------------------------------
  // The histogram
  // ---------------------------------------------------------------------

  class DurationHistogram {
    const buckets: array<U64>
    var sum: U64
    var count: U64
    ghost var observed: seq<U64>

    ghost predicate Valid()
      reads this, buckets
    {
      && buckets.Length == |BOUNDARIES| + 1
      && (forall i | 0 <= i <= |BOUNDARIES| :: buckets[i] == Inside(observed, i) % U64_RANGE)
      && sum == Total(observed) % U64_RANGE
      && count == |observed| % U64_RANGE
    }

    constructor ()
      ensures Valid() && observed == [] && fresh(buckets)
    {
      buckets := new U64[|BOUNDARIES| + 1](_ => 0);
      sum, count, observed := 0, 0, [];
    }

    method Observe(value: U64)
      requires Valid()
      modifies this, buckets
      ensures Valid() && observed == old(observed) + [value]
    {
      sum := WrappingAdd(sum, value);
      count := WrappingAdd(count, 1);
      var i := 0;
      while i < |BOUNDARIES| && value > BOUNDARIES[i]
        invariant 0 <= i <= |BOUNDARIES| && forall j | 0 <= j < i :: value > BOUNDARIES[j]
      {
        i := i + 1;
      }
      buckets[i] := WrappingAdd(buckets[i], 1);
      TotalOfOneMore(observed, value);
      WrappingAddOfOne(Total(observed), value);
      WrappingAddOfOne(|observed|, 1);
      forall k | 0 <= k <= |BOUNDARIES|
        ensures buckets[k] == Inside(observed + [value], k) % U64_RANGE
      {
        ObservationCountsModularly(observed, value, i, k);
      }
      observed := observed + [value];
    }

    /** The cumulative lines, the last for +Inf, with the sum and the count: each is the
        number of observations up to its boundary, as far as 64 bits carry it; and as
        long as the observations themselves fit, exactly. */
    method Render() returns (cumulative: seq<U64>, total: U64, number: U64)
      requires Valid()
      ensures |cumulative| == |BOUNDARIES| + 1
      ensures forall i | 0 <= i <= |BOUNDARIES| :: cumulative[i] == UpTo(observed, i) % U64_RANGE
      ensures total == Total(observed) % U64_RANGE && number == |observed| % U64_RANGE
      ensures cumulative[|BOUNDARIES|] == number
      ensures |observed| < U64_RANGE ==>
                && (forall i | 0 <= i < |BOUNDARIES| :: cumulative[i] == AtMost(observed, BOUNDARIES[i]))
                && (forall i, j | 0 <= i <= j <= |BOUNDARIES| :: cumulative[i] <= cumulative[j])
                && number == |observed|
      ensures Total(observed) < U64_RANGE ==> total == Total(observed)
    {
      cumulative := [];
      var running: U64 := 0;
      for i := 0 to |BOUNDARIES|
        invariant |cumulative| == i
        invariant running == if i == 0 then 0 else UpTo(observed, i - 1) % U64_RANGE
        invariant forall k | 0 <= k < i :: cumulative[k] == UpTo(observed, k) % U64_RANGE
      {
        running := NextRunning(running, i);
        cumulative := cumulative + [running];
      }
      running := NextRunning(running, |BOUNDARIES|);
      cumulative := cumulative + [running];
      total, number := sum, count;
      if |observed| < U64_RANGE {
        ExactWhileItFits(observed, cumulative);
      }
    }

    method NextRunning(running: U64, i: nat) returns (next: U64)
      requires Valid() && i <= |BOUNDARIES|
      requires running == if i == 0 then 0 else UpTo(observed, i - 1) % U64_RANGE
      ensures next == UpTo(observed, i) % U64_RANGE
    {
      next := WrappingAdd(running, buckets[i]);
      InsideIsCount(observed, i);
      WrappingAddIsModular(if i == 0 then 0 else UpTo(observed, i - 1), Inside(observed, i));
    }
  }

  lemma InsideIsCount(observed: seq<U64>, i: nat)
    requires i <= |BOUNDARIES|
    ensures Inside(observed, i) >= 0
  {
    if i > 0 {
      UpToGrows(observed, i - 1, i);
    }
  }
}
