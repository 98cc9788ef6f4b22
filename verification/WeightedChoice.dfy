/** The weighted random choice: every endpoint is drawn exactly in proportion to its weight. */
module WeightedChoice {
  import opened Endpoints

  /** The priority when positive, else 1. */
  function Weight(ep: Endpoint): (w: int)
    ensures w >= 1
  {
    if ep.priority > 0 then ep.priority else 1
  }

  function Total(eps: seq<Endpoint>): (t: int)
    ensures t >= |eps|
  {
    if eps == [] then 0 else Total(eps[..|eps| - 1]) + Weight(eps[|eps| - 1])
  }

  /** `r` falls into the `i`-th of the consecutive intervals whose lengths are the weights. */
  predicate Drawn(eps: seq<Endpoint>, r: int, i: nat)
    requires i < |eps|
  {
    Total(eps[..i]) <= r < Total(eps[..i + 1])
  }

  lemma {:induction false} TotalStep(eps: seq<Endpoint>, i: nat)
    requires i < |eps|
    ensures Total(eps[..i + 1]) == Total(eps[..i]) + Weight(eps[i])
  {
    assert eps[..i + 1][..i] == eps[..i];
  }

  lemma {:induction false} TotalMonotone(eps: seq<Endpoint>, i: nat, j: nat)
    requires i <= j <= |eps|
    ensures Total(eps[..i]) <= Total(eps[..j])
    decreases j
  {
    if i < j {
      TotalMonotone(eps, i, j - 1);
      TotalStep(eps, j - 1);
    }
  }

  /** `weightedRandom`, for the draw `r` that `rand.Intn(total)` made. The loop always
      returns: the statement after it cannot be reached. */
  method WeightedRandom(eps: seq<Endpoint>, r: int) returns (i: nat)
    requires 0 <= r < Total(eps)
    ensures i < |eps| && Drawn(eps, r, i)
  {
    var total := 0;
    var weights: seq<int> := [];
    for k := 0 to |eps|
      invariant |weights| == k && total == Total(eps[..k])
      invariant forall j :: 0 <= j < k ==> weights[j] == Weight(eps[j])
    {
      var w := 1;
      if eps[k].priority > 0 {
        w := eps[k].priority;
      }
      TotalStep(eps, k);
      weights := weights + [w];
      total := total + w;
    }
    assert eps[..|eps|] == eps;
    var left := r;
    i := |eps| - 1;
    for k := 0 to |eps|
      invariant left == r - Total(eps[..k]) && left >= 0
    {
      TotalStep(eps, k);
      left := left - weights[k];
      if left < 0 {
        return k;
      }
    }
    assert false;
  }

  lemma {:induction false} DrawnOnce(eps: seq<Endpoint>, r: int, i: nat, j: nat)
    requires i < |eps| && j < |eps| && Drawn(eps, r, i) && Drawn(eps, r, j)
    ensures i == j
  {
    if i < j {
      TotalMonotone(eps, i + 1, j);
    } else if j < i {
      TotalMonotone(eps, j + 1, i);
    }
  }

  predicate Within(lo: int, r: int, hi: int) {
    lo <= r < hi
  }

  lemma {:induction false} IntervalSize(lo: int, hi: int, s: set<int>)
    requires lo <= hi && s == set r | lo <= r < hi && Within(lo, r, hi)
    ensures |s| == hi - lo
    decreases hi - lo
  {
    if lo < hi {
      IntervalSize(lo, hi - 1, s - {hi - 1});
    } else {
      assert s == {};
    }
  }

  /** Of the draws in `[0, total)`, exactly as many select index `i` as its endpoint's priority says,
      or one where that is not positive. */
  lemma {:induction false} ExactWeights(eps: seq<Endpoint>, i: nat)
    requires i < |eps|
    ensures |set r | 0 <= r < Total(eps) && Drawn(eps, r, i)| == if eps[i].priority > 0 then eps[i].priority else 1
  {
    var lo, hi := Total(eps[..i]), Total(eps[..i + 1]);
    TotalStep(eps, i);
    TotalMonotone(eps, 0, i);
    TotalMonotone(eps, i + 1, |eps|);
    assert eps[..0] == [] && eps[..|eps|] == eps;
    var s := set r | 0 <= r < Total(eps) && Drawn(eps, r, i);
    assert s == set r | lo <= r < hi && Within(lo, r, hi);
    IntervalSize(lo, hi, s);
  }

  /** Every draw selects exactly one index. */
  lemma {:induction false} EveryDrawSelects(eps: seq<Endpoint>, r: int) returns (i: nat)
    requires 0 <= r < Total(eps)
    ensures i < |eps| && Drawn(eps, r, i)
    ensures forall j: nat :: j < |eps| && Drawn(eps, r, j) ==> j == i
  {
    i := 0;
    assert eps[..0] == [] && eps[..|eps|] == eps;
    while i < |eps| && Total(eps[..i + 1]) <= r
      invariant i <= |eps| && Total(eps[..i]) <= r
    {
      i := i + 1;
    }
    forall j: nat | j < |eps| && Drawn(eps, r, j)
      ensures j == i
    {
      DrawnOnce(eps, r, i, j);
    }
  }
}
