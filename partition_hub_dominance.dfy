/**
 * Partition hub dominance: for every cluster of a partition, the largest
 * number of neighbours inside the cluster that one member has, relative to
 * the cluster's size minus one, together with summary statistics over the
 * non-empty clusters.
 */
module PartitionHubDominance {

  type Node = nat

  /** The partition's "no subset" entry: the largest 64-bit unsigned index. */
  const NoneId: nat := 0xFFFF_FFFF_FFFF_FFFF

  /** The largest finite double, (2^53 - 1) * 2^971. */
  const DoubleMax: real := 179_769_313_486_231_570_814_527_423_731_704_356_798_070_567_525_844_996_598_917_476_803_157_260_780_028_538_760_589_558_632_766_878_171_540_458_953_514_382_464_234_321_326_889_464_182_768_467_546_703_537_516_986_049_910_576_551_282_076_245_490_090_389_328_944_075_868_508_455_133_942_304_583_236_903_222_948_165_808_559_332_123_348_274_797_826_204_144_723_168_738_177_180_919_299_881_250_404_026_184_124_858_368.0

  /** The lowest finite double. */
  const DoubleLowest: real := -DoubleMax

  /** A double: a finite value, an infinity or NaN. */
  datatype Double = Finite(value: real) | PosInf | NegInf | NaN

  /** IEEE division of a finite double by a count converted to double. */
  function DivCount(x: real, n: nat): (r: Double)
    ensures r.Finite? <==> n > 0
    ensures r.NaN? <==> n == 0 && x == 0.0
    ensures r.Finite? ==> r.value * (n as real) == x
  {
    if n > 0 then Finite(x / (n as real))
    else if x == 0.0 then NaN
    else if x > 0.0 then PosInf
    else NegInf
  }

  /**
   * The graph as adjacency lists over nodes 0 .. |adj| - 1 and the partition
   * as one entry per node: a subset id below upperBound, or NoneId.
   */
  predicate WellFormed(adj: seq<seq<Node>>, P: seq<nat>, upperBound: nat)
  {
    && |P| == |adj| && upperBound <= NoneId
    && (forall u :: 0 <= u < |P| ==> P[u] == NoneId || P[u] < upperBound)
    && (forall u :: 0 <= u < |adj| ==> forall j :: 0 <= j < |adj[u]| ==> adj[u][j] < |adj|)
  }

  /** How many entries of nbrs lie in subset c. */
  function CountIn(nbrs: seq<Node>, P: seq<nat>, c: nat): (k: nat)
    requires forall j :: 0 <= j < |nbrs| ==> nbrs[j] < |P|
    ensures k <= |nbrs|
  {
    if |nbrs| == 0 then 0
    else CountIn(nbrs[..|nbrs| - 1], P, c) + (if P[nbrs[|nbrs| - 1]] == c then 1 else 0)
  }

  /** The number of nodes below n in subset c. */
  function ClusterSize(P: seq<nat>, c: nat, n: nat): (k: nat)
    requires n <= |P|
    ensures k <= n
  {
    if n == 0 then 0 else ClusterSize(P, c, n - 1) + (if P[n - 1] == c then 1 else 0)
  }

  /** The largest internal degree of a node below n in subset c, 0 when there is none. */
  function MaxInternalDeg(adj: seq<seq<Node>>, P: seq<nat>, upperBound: nat, c: nat, n: nat): nat
    requires WellFormed(adj, P, upperBound) && n <= |P|
  {
    if n == 0 then 0
    else
      var m := MaxInternalDeg(adj, P, upperBound, c, n - 1);
      if P[n - 1] == c then Max(m, CountIn(adj[n - 1], P, c)) else m
  }

  function Max(a: nat, b: nat): nat { if a < b then b else a }

  /**
   * MaxInternalDeg is the largest internal degree: it bounds that of every
   * member of c below n, is that of one of them, and is 0 when there is none.
   */
  lemma {:induction false} MaxInternalDegIsMax(adj: seq<seq<Node>>, P: seq<nat>, upperBound: nat, c: nat, n: nat)
    requires WellFormed(adj, P, upperBound) && n <= |P|
    ensures forall u :: 0 <= u < n && P[u] == c ==> CountIn(adj[u], P, c) <= MaxInternalDeg(adj, P, upperBound, c, n)
    ensures ClusterSize(P, c, n) == 0 ==> MaxInternalDeg(adj, P, upperBound, c, n) == 0
    ensures ClusterSize(P, c, n) > 0 ==>
      exists u :: 0 <= u < n && P[u] == c && CountIn(adj[u], P, c) == MaxInternalDeg(adj, P, upperBound, c, n)
    decreases n
  {
    if n > 0 {
      MaxInternalDegIsMax(adj, P, upperBound, c, n - 1);
      if P[n - 1] == c && ClusterSize(P, c, n - 1) == 0 {
        assert CountIn(adj[n - 1], P, c) == MaxInternalDeg(adj, P, upperBound, c, n);
      }
    }
  }

  /** Cluster sizes of subsets 0 .. upperBound - 1. */
  function Sizes(P: seq<nat>, upperBound: nat): (s: seq<nat>)
    ensures |s| == upperBound
  {
    seq(upperBound, c requires 0 <= c < upperBound => ClusterSize(P, c, |P|))
  }

  /** Largest internal degrees of subsets 0 .. upperBound - 1. */
  function MaxDegs(adj: seq<seq<Node>>, P: seq<nat>, upperBound: nat): (s: seq<nat>)
    requires WellFormed(adj, P, upperBound)
    ensures |s| == upperBound
  {
    seq(upperBound, c requires 0 <= c < upperBound => MaxInternalDeg(adj, P, upperBound, c, |P|))
  }

  /** The dominance of a non-empty cluster: 1 for a singleton, else maxDeg / (size - 1). */
  function Dominance(size: nat, maxDeg: nat): real
  {
    if size > 1 then (maxDeg as real) / ((size - 1) as real) else 1.0
  }

  /** One value per subset id: its dominance when non-empty, 0 when empty. */
  function Values(sizes: seq<nat>, degs: seq<nat>): (v: seq<real>)
    requires |sizes| == |degs|
    ensures |v| == |sizes|
  {
    seq(|sizes|, i requires 0 <= i < |sizes| => if sizes[i] > 0 then Dominance(sizes[i], degs[i]) else 0.0)
  }

  /** The number of non-empty ids below k. */
  function NumClusters(sizes: seq<nat>, k: nat): nat
    requires k <= |sizes|
  {
    if k == 0 then 0 else NumClusters(sizes, k - 1) + (if sizes[k - 1] > 0 then 1 else 0)
  }

  /** The sum of the dominances of the non-empty ids below k. */
  function DominanceSum(sizes: seq<nat>, degs: seq<nat>, k: nat): real
    requires k <= |sizes| == |degs|
  {
    if k == 0 then 0.0
    else DominanceSum(sizes, degs, k - 1) + (if sizes[k - 1] > 0 then Dominance(sizes[k - 1], degs[k - 1]) else 0.0)
  }

  /** As written: dominance times size of the last non-empty id below k (0 when there is none). */
  function LastWeighted(sizes: seq<nat>, degs: seq<nat>, k: nat): real
    requires k <= |sizes| == |degs|
  {
    if k == 0 then 0.0
    else if sizes[k - 1] > 0 then Dominance(sizes[k - 1], degs[k - 1]) * (sizes[k - 1] as real)
    else LastWeighted(sizes, degs, k - 1)
  }

  lemma LastWeightedStep(sizes: seq<nat>, degs: seq<nat>, k: nat)
    requires k < |sizes| == |degs|
    ensures LastWeighted(sizes, degs, k + 1)
         == if sizes[k] > 0 then Dominance(sizes[k], degs[k]) * (sizes[k] as real) else LastWeighted(sizes, degs, k)
  {
  }

  /** As intended: the sum of value times size over the non-empty ids below k. */
  function WeightedSum(sizes: seq<nat>, v: seq<real>, k: nat): real
    requires k <= |sizes| == |v|
  {
    if k == 0 then 0.0
    else WeightedSum(sizes, v, k - 1) + (if sizes[k - 1] > 0 then v[k - 1] * (sizes[k - 1] as real) else 0.0)
  }

  /** The largest dominance of a non-empty id below k, starting from the lowest double. */
  function MaxDominance(sizes: seq<nat>, degs: seq<nat>, k: nat): real
    requires k <= |sizes| == |degs|
  {
    if k == 0 then DoubleLowest
    else
      var m := MaxDominance(sizes, degs, k - 1);
      if sizes[k - 1] > 0 then RealMax(Dominance(sizes[k - 1], degs[k - 1]), m) else m
  }

  /** The smallest dominance of a non-empty id below k, starting from the largest double. */
  function MinDominance(sizes: seq<nat>, degs: seq<nat>, k: nat): real
    requires k <= |sizes| == |degs|
  {
    if k == 0 then DoubleMax
    else
      var m := MinDominance(sizes, degs, k - 1);
      if sizes[k - 1] > 0 then RealMin(Dominance(sizes[k - 1], degs[k - 1]), m) else m
  }

  /** std::max(a, b): the larger, the first on a tie. */
  function RealMax(a: real, b: real): real { if a < b then b else a }

  /** std::min(a, b): the smaller, the first on a tie. */
  function RealMin(a: real, b: real): real { if b < a then b else a }

  /** The number of nodes below n that belong to some subset. */
  function Assigned(P: seq<nat>, n: nat): (k: nat)
    requires n <= |P|
    ensures k <= n
  {
    if n == 0 then 0 else Assigned(P, n - 1) + (if P[n - 1] != NoneId then 1 else 0)
  }

  /** The sum of cluster sizes of the ids below k. */
  function SizeSum(sizes: seq<nat>, k: nat): nat
    requires k <= |sizes|
  {
    if k == 0 then 0 else SizeSum(sizes, k - 1) + sizes[k - 1]
  }

  /** The sizes of the subsets below k, counted over the nodes below n. */
  function PrefixSizeSum(P: seq<nat>, n: nat, k: nat): nat
    requires n <= |P|
  {
    if k == 0 then 0 else PrefixSizeSum(P, n, k - 1) + ClusterSize(P, k - 1, n)
  }

  lemma {:induction false} PrefixSizeSumStep(P: seq<nat>, n: nat, k: nat)
    requires n < |P|
    ensures PrefixSizeSum(P, n + 1, k) == PrefixSizeSum(P, n, k) + (if P[n] < k then 1 else 0)
  {
    if k > 0 {
      PrefixSizeSumStep(P, n, k - 1);
    }
  }

  /** Every node that belongs to a subset is counted in exactly one cluster size. */
  lemma {:induction false} PrefixSizeSumAssigned(P: seq<nat>, upperBound: nat, n: nat)
    requires n <= |P|
    requires forall u :: 0 <= u < |P| ==> P[u] == NoneId || P[u] < upperBound
    requires upperBound <= NoneId
    ensures PrefixSizeSum(P, n, upperBound) == Assigned(P, n)
  {
    if n == 0 {
      ZeroPrefixSizeSum(P, upperBound);
    } else {
      PrefixSizeSumAssigned(P, upperBound, n - 1);
      PrefixSizeSumStep(P, n - 1, upperBound);
    }
  }

  lemma {:induction false} ZeroPrefixSizeSum(P: seq<nat>, k: nat)
    ensures PrefixSizeSum(P, 0, k) == 0
  {
    if k > 0 {
      ZeroPrefixSizeSum(P, k - 1);
    }
  }

  lemma {:induction false} SizeSumPrefix(P: seq<nat>, upperBound: nat, k: nat)
    requires k <= upperBound
    ensures SizeSum(Sizes(P, upperBound), k) == PrefixSizeSum(P, |P|, k)
  {
    if k > 0 {
      SizeSumPrefix(P, upperBound, k - 1);
    }
  }

  /** The cluster sizes add up to the number of nodes that belong to a subset. */
  lemma SizesAddUp(adj: seq<seq<Node>>, P: seq<nat>, upperBound: nat)
    requires WellFormed(adj, P, upperBound) && upperBound <= NoneId
    ensures SizeSum(Sizes(P, upperBound), upperBound) == Assigned(P, |P|)
  {
    SizeSumPrefix(P, upperBound, upperBound);
    PrefixSizeSumAssigned(P, upperBound, |P|);
  }

  /** A dominance is never negative, and never above the largest degree when that is at least 1. */
  lemma DominanceRange(size: nat, maxDeg: nat)
    ensures 0.0 <= Dominance(size, maxDeg)
    ensures maxDeg >= 1 ==> Dominance(size, maxDeg) <= maxDeg as real
    ensures maxDeg == 0 ==> Dominance(size, maxDeg) <= 1.0
  {
    if size > 1 {
      assert (size - 1) as real >= 1.0;
    }
  }

  /** Every largest internal degree is a finite double. */
  predicate DegsBelowDoubleMax(degs: seq<nat>)
  {
    forall i :: 0 <= i < |degs| ==> degs[i] as real <= DoubleMax
  }

  /**
   * The maximum and the minimum bound the dominance of every non-empty id below
   * k, and each is attained by one of them; with no non-empty id they keep
   * their start values.
   */
  lemma {:induction false} ExtremesBound(sizes: seq<nat>, degs: seq<nat>, k: nat)
    requires k <= |sizes| == |degs| && DegsBelowDoubleMax(degs)
    ensures forall i :: 0 <= i < k && sizes[i] > 0 ==>
      MinDominance(sizes, degs, k) <= Dominance(sizes[i], degs[i]) <= MaxDominance(sizes, degs, k)
    ensures NumClusters(sizes, k) == 0 ==> MaxDominance(sizes, degs, k) == DoubleLowest && MinDominance(sizes, degs, k) == DoubleMax
    ensures NumClusters(sizes, k) > 0 ==>
      && (exists i :: 0 <= i < k && sizes[i] > 0 && MaxDominance(sizes, degs, k) == Dominance(sizes[i], degs[i]))
      && (exists i :: 0 <= i < k && sizes[i] > 0 && MinDominance(sizes, degs, k) == Dominance(sizes[i], degs[i]))
  {
    if k > 0 {
      ExtremesBound(sizes, degs, k - 1);
      if sizes[k - 1] > 0 {
        DominanceRange(sizes[k - 1], degs[k - 1]);
        assert degs[k - 1] as real <= DoubleMax;
      }
    }
  }

  /** The intended weighted average: the size-weighted mean dominance over all nodes. */
  function IntendedWeightedAverage(adj: seq<seq<Node>>, P: seq<nat>, upperBound: nat): Double
    requires WellFormed(adj, P, upperBound)
  {
    var sizes := Sizes(P, upperBound);
    DivCount(WeightedSum(sizes, Values(sizes, MaxDegs(adj, P, upperBound)), upperBound), |adj|)
  }

  /** The weighted sum is at least lo times the total size when every value is at least lo. */
  lemma {:induction false} WeightedSumAbove(sizes: seq<nat>, v: seq<real>, k: nat, lo: real)
    requires k <= |sizes| == |v|
    requires forall i :: 0 <= i < k && sizes[i] > 0 ==> lo <= v[i]
    ensures lo * (SizeSum(sizes, k) as real) <= WeightedSum(sizes, v, k)
  {
    if k > 0 {
      WeightedSumAbove(sizes, v, k - 1, lo);
      WeightedSumAboveStep(sizes, v, k, lo);
    }
  }

  lemma WeightedSumAboveStep(sizes: seq<nat>, v: seq<real>, k: nat, lo: real)
    requires 0 < k <= |sizes| == |v| && (sizes[k - 1] > 0 ==> lo <= v[k - 1])
    requires lo * (SizeSum(sizes, k - 1) as real) <= WeightedSum(sizes, v, k - 1)
    ensures lo * (SizeSum(sizes, k) as real) <= WeightedSum(sizes, v, k)
  {
    if sizes[k - 1] > 0 {
      StepAbove(lo, WeightedSum(sizes, v, k - 1), SizeSum(sizes, k - 1) as real, v[k - 1], sizes[k - 1] as real,
                WeightedSum(sizes, v, k), SizeSum(sizes, k) as real);
    } else {
      StepAbove(lo, WeightedSum(sizes, v, k - 1), SizeSum(sizes, k - 1) as real, 0.0, 0.0,
                WeightedSum(sizes, v, k), SizeSum(sizes, k) as real);
    }
  }

  /** The weighted sum is at most hi times the total size when every value is at most hi. */
  lemma {:induction false} WeightedSumBelow(sizes: seq<nat>, v: seq<real>, k: nat, hi: real)
    requires k <= |sizes| == |v|
    requires forall i :: 0 <= i < k && sizes[i] > 0 ==> v[i] <= hi
    ensures WeightedSum(sizes, v, k) <= hi * (SizeSum(sizes, k) as real)
  {
    if k > 0 {
      WeightedSumBelow(sizes, v, k - 1, hi);
      WeightedSumBelowStep(sizes, v, k, hi);
    }
  }

  lemma WeightedSumBelowStep(sizes: seq<nat>, v: seq<real>, k: nat, hi: real)
    requires 0 < k <= |sizes| == |v| && (sizes[k - 1] > 0 ==> v[k - 1] <= hi)
    requires WeightedSum(sizes, v, k - 1) <= hi * (SizeSum(sizes, k - 1) as real)
    ensures WeightedSum(sizes, v, k) <= hi * (SizeSum(sizes, k) as real)
  {
    if sizes[k - 1] > 0 {
      StepBelow(hi, WeightedSum(sizes, v, k - 1), SizeSum(sizes, k - 1) as real, v[k - 1], sizes[k - 1] as real,
                WeightedSum(sizes, v, k), SizeSum(sizes, k) as real);
    } else {
      StepBelow(hi, WeightedSum(sizes, v, k - 1), SizeSum(sizes, k - 1) as real, 0.0, 0.0,
                WeightedSum(sizes, v, k), SizeSum(sizes, k) as real);
    }
  }

  /** Adding d >= lo weighted by s >= 0 (any d when s is 0) to a sum of at least lo * t gives at least lo * (t + s). */
  lemma StepAbove(lo: real, w: real, t: real, d: real, s: real, w2: real, t2: real)
    requires lo * t <= w && s >= 0.0 && (s == 0.0 || lo <= d)
    requires w2 == w + d * s && t2 == t + s
    ensures lo * t2 <= w2
  {
    assert lo * s <= d * s;
    assert lo * t2 == lo * t + lo * s;
  }

  /** Adding d <= hi weighted by s >= 0 (any d when s is 0) to a sum of at most hi * t gives at most hi * (t + s). */
  lemma StepBelow(hi: real, w: real, t: real, d: real, s: real, w2: real, t2: real)
    requires w <= hi * t && s >= 0.0 && (s == 0.0 || d <= hi)
    requires w2 == w + d * s && t2 == t + s
    ensures w2 <= hi * t2
  {
    assert d * s <= hi * s;
    assert hi * t2 == hi * t + hi * s;
  }

  lemma DivideAbove(lo: real, w: real, n: real)
    requires lo * n <= w && n > 0.0
    ensures lo <= w / n
  {
  }

  lemma DivideBelow(hi: real, w: real, n: real)
    requires w <= hi * n && n > 0.0
    ensures w / n <= hi
  {
  }

  /**
   * When every node belongs to a subset, the intended weighted average is a
   * mean of the dominances: it lies between the smallest and the largest.
   */
  lemma IntendedWeightedAverageBetween(adj: seq<seq<Node>>, P: seq<nat>, upperBound: nat)
    requires WellFormed(adj, P, upperBound) && |adj| > 0
    requires forall u :: 0 <= u < |P| ==> P[u] != NoneId
    requires DegsBelowDoubleMax(MaxDegs(adj, P, upperBound))
    ensures var sizes, degs := Sizes(P, upperBound), MaxDegs(adj, P, upperBound);
      var r := IntendedWeightedAverage(adj, P, upperBound);
      r.Finite? && MinDominance(sizes, degs, upperBound) <= r.value <= MaxDominance(sizes, degs, upperBound)
  {
    var sizes, degs := Sizes(P, upperBound), MaxDegs(adj, P, upperBound);
    SizesAddUp(adj, P, upperBound);
    AllAssigned(P, |P|);
    ValuesBetween(sizes, degs);
    MeanBetween(sizes, Values(sizes, degs), MinDominance(sizes, degs, upperBound), MaxDominance(sizes, degs, upperBound), |adj|);
  }

  /** Every non-empty id's value lies between the minimum and the maximum. */
  lemma ValuesBetween(sizes: seq<nat>, degs: seq<nat>)
    requires |sizes| == |degs| && DegsBelowDoubleMax(degs)
    ensures forall i :: 0 <= i < |sizes| && sizes[i] > 0 ==>
      MinDominance(sizes, degs, |sizes|) <= Values(sizes, degs)[i] <= MaxDominance(sizes, degs, |sizes|)
  {
    ExtremesBound(sizes, degs, |sizes|);
  }

  /** A size-weighted mean of values between lo and hi lies between lo and hi. */
  lemma MeanBetween(sizes: seq<nat>, v: seq<real>, lo: real, hi: real, n: nat)
    requires |sizes| == |v| && SizeSum(sizes, |sizes|) == n > 0
    requires forall i :: 0 <= i < |sizes| && sizes[i] > 0 ==> lo <= v[i] <= hi
    ensures lo <= WeightedSum(sizes, v, |sizes|) / (n as real) <= hi
  {
    MeanAbove(sizes, v, lo, n);
    MeanBelow(sizes, v, hi, n);
  }

  lemma MeanAbove(sizes: seq<nat>, v: seq<real>, lo: real, n: nat)
    requires |sizes| == |v| && SizeSum(sizes, |sizes|) == n > 0
    requires forall i :: 0 <= i < |sizes| && sizes[i] > 0 ==> lo <= v[i]
    ensures lo <= WeightedSum(sizes, v, |sizes|) / (n as real)
  {
    WeightedSumAbove(sizes, v, |sizes|, lo);
    DivideAbove(lo, WeightedSum(sizes, v, |sizes|), n as real);
  }

  lemma MeanBelow(sizes: seq<nat>, v: seq<real>, hi: real, n: nat)
    requires |sizes| == |v| && SizeSum(sizes, |sizes|) == n > 0
    requires forall i :: 0 <= i < |sizes| && sizes[i] > 0 ==> v[i] <= hi
    ensures WeightedSum(sizes, v, |sizes|) / (n as real) <= hi
  {
    WeightedSumBelow(sizes, v, |sizes|, hi);
    DivideBelow(hi, WeightedSum(sizes, v, |sizes|), n as real);
  }

  lemma {:induction false} AllAssigned(P: seq<nat>, n: nat)
    requires n <= |P| && forall u :: 0 <= u < |P| ==> P[u] != NoneId
    ensures Assigned(P, n) == n
  {
    if n > 0 {
      AllAssigned(P, n - 1);
    }
  }

  /**
   * As written, two singleton clusters (dominance 1 each) over two nodes give
   * a weighted average of 1/2, below the smallest dominance.
   */
  lemma AsWrittenWeightedAverageBelowMinimum()
    ensures var adj, P := [[], []], [0, 1];
      var sizes, degs := Sizes(P, 2), MaxDegs(adj, P, 2);
      && DivCount(LastWeighted(sizes, degs, 2), |adj|) == Finite(0.5)
      && MinDominance(sizes, degs, 2) == 1.0
      && IntendedWeightedAverage(adj, P, 2) == Finite(1.0)
  {
    var adj: seq<seq<Node>>, P: seq<nat> := [[], []], [0, 1];
    assert WellFormed(adj, P, 2);
    var sizes, degs := Sizes(P, 2), MaxDegs(adj, P, 2);
    assert sizes[0] == ClusterSize(P, 0, 2) == 1;
    assert sizes[1] == ClusterSize(P, 1, 2) == 1;
    assert sizes == [1, 1];
    assert degs[0] == MaxInternalDeg(adj, P, 2, 0, 2) == 0;
    assert degs[1] == MaxInternalDeg(adj, P, 2, 1, 2) == 0;
    assert degs == [0, 0];
    assert Dominance(1, 0) == 1.0;
    assert MinDominance(sizes, degs, 1) == 1.0;
  }

  class PartitionHubDominance {
    /** Adjacency lists of the graph. */
    const adj: seq<seq<Node>>
    /** The partition: one subset id (or NoneId) per node. */
    const P: seq<nat>
    /** The partition's upper bound on subset ids. */
    const upperBound: nat
    /** One dominance value per subset id. */
    var values: seq<real>
    var weightedAverage: Double
    var unweightedAverage: Double
    var maximumValue: real
    var minimumValue: real
    var hasRun: bool

    constructor (adj: seq<seq<Node>>, P: seq<nat>, upperBound: nat)
      requires WellFormed(adj, P, upperBound)
      ensures this.adj == adj && this.P == P && this.upperBound == upperBound
      ensures !hasRun && values == []
    {
      this.adj := adj;
      this.P := P;
      this.upperBound := upperBound;
      values := [];
      weightedAverage, unweightedAverage := Finite(0.0), Finite(0.0);
      maximumValue, minimumValue := 0.0, 0.0;
      hasRun := false;
    }

    /** The number of entries of nbrs in subset c. */
    static method CountInternal(nbrs: seq<Node>, P: seq<nat>, c: nat) returns (internalDeg: nat)
      requires forall j :: 0 <= j < |nbrs| ==> nbrs[j] < |P|
      ensures internalDeg == CountIn(nbrs, P, c)
    {
      internalDeg := 0;
      var j := 0;
      while j < |nbrs|
        invariant 0 <= j <= |nbrs|
        invariant internalDeg == CountIn(nbrs[..j], P, c)
      {
        assert nbrs[..j + 1][..j] == nbrs[..j];
        if P[nbrs[j]] == c {
          internalDeg := internalDeg + 1;
        }
        j := j + 1;
      }
      assert nbrs[..j] == nbrs;
    }

    /** The first pass over the nodes: size and largest internal degree of every subset. */
    static method ClusterStats(adj: seq<seq<Node>>, P: seq<nat>, upperBound: nat)
      returns (sizes: seq<nat>, degs: seq<nat>)
      requires WellFormed(adj, P, upperBound)
      ensures sizes == Sizes(P, upperBound) && degs == MaxDegs(adj, P, upperBound)
    {
      var maxInternalDeg := new nat[upperBound](_ => 0);
      var clusterSizes := new nat[upperBound](_ => 0);
      var u := 0;
      while u < |adj|
        invariant 0 <= u <= |adj|
        invariant forall c :: 0 <= c < upperBound ==>
          clusterSizes[c] == ClusterSize(P, c, u) && maxInternalDeg[c] == MaxInternalDeg(adj, P, upperBound, c, u)
      {
        var c := P[u];
        if c != NoneId {
          var internalDeg := CountInternal(adj[u], P, c);
          maxInternalDeg[c] := Max(maxInternalDeg[c], internalDeg);
          clusterSizes[c] := clusterSizes[c] + 1;
        }
        u := u + 1;
      }
      sizes, degs := clusterSizes[..], maxInternalDeg[..];
    }

    /**
     * Computes cluster sizes and largest internal degrees, then the value of
     * every subset id and the statistics over the non-empty ones.
     */
    method Run()
      requires WellFormed(adj, P, upperBound)
      modifies this
      ensures hasRun
      ensures var sizes, degs := Sizes(P, upperBound), MaxDegs(adj, P, upperBound);
        && values == Values(sizes, degs)
        && unweightedAverage == DivCount(DominanceSum(sizes, degs, upperBound), NumClusters(sizes, upperBound))
        && weightedAverage == DivCount(LastWeighted(sizes, degs, upperBound), |adj|)
        && maximumValue == MaxDominance(sizes, degs, upperBound)
        && minimumValue == MinDominance(sizes, degs, upperBound)
    {
      hasRun := false;
      var clusterSizes, maxInternalDeg := ClusterStats(adj, P, upperBound);
      ghost var sizes, degs := clusterSizes, maxInternalDeg;

      var numClusters := 0;
      var weighted := 0.0;
      var unweighted := 0.0;
      maximumValue := DoubleLowest;
      minimumValue := DoubleMax;
      values := seq(upperBound, _ => 0.0);
      var i := 0;
      while i < upperBound
        invariant 0 <= i <= upperBound && |values| == upperBound
        invariant forall k :: 0 <= k < i ==> values[k] == Values(sizes, degs)[k]
        invariant forall k :: i <= k < upperBound ==> values[k] == 0.0
        invariant numClusters == NumClusters(sizes, i)
        invariant unweighted == DominanceSum(sizes, degs, i)
        invariant weighted == LastWeighted(sizes, degs, i)
        invariant maximumValue == MaxDominance(sizes, degs, i)
        invariant minimumValue == MinDominance(sizes, degs, i)
      {
        LastWeightedStep(sizes, degs, i);
        if clusterSizes[i] > 0 {
          numClusters := numClusters + 1;
          var dominance := 1.0;
          if clusterSizes[i] > 1 {
            dominance := (maxInternalDeg[i] as real) / ((clusterSizes[i] - 1) as real);
          }
          assert dominance == Dominance(sizes[i], degs[i]);
          values := values[i := dominance];
          unweighted := unweighted + dominance;
          weighted := dominance * (clusterSizes[i] as real);
          assert weighted == Dominance(sizes[i], degs[i]) * (sizes[i] as real);
          maximumValue := RealMax(dominance, maximumValue);
          minimumValue := RealMin(dominance, minimumValue);
        }
        i := i + 1;
      }
      unweightedAverage := DivCount(unweighted, numClusters);
      weightedAverage := DivCount(weighted, |adj|);
      hasRun := true;
    }
  }
}
