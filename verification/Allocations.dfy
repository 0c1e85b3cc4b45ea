/** What the scheduler may allocate on one GPU when every shared counter has to suffice (KEP 4815). */
module Allocations {
  import opened CounterNames
  import opened Partitions

  /** An allocated device together with the counters it consumes. */
  datatype Consumer = Consumer(capacities: Capacities, placement: Placement, used: Counters) {
    ghost predicate Valid() {
      IsConsumption(used, capacities, placement)
    }
  }

  function Sum(cs: seq<Consumer>, name: string): int {
    if cs == [] then 0 else Sum(cs[..|cs| - 1], name) + At(cs[|cs| - 1].used, name)
  }

  /** Per counter, the consumption adds up to no more than is shared; an undeclared counter offers nothing. */
  ghost predicate Feasible(shared: Counters, cs: seq<Consumer>) {
    forall name :: Sum(cs, name) <= At(shared, name)
  }

  /** Only the memory-slice counters. */
  ghost predicate SlicesFeasible(shared: Counters, cs: seq<Consumer>) {
    forall i: nat :: Sum(cs, MemSliceCounterName(i)) <= At(shared, MemSliceCounterName(i))
  }

  predicate Covers(p: Placement, i: nat) {
    p.start <= i < p.start + p.size
  }

  predicate Disjoint(p: Placement, q: Placement) {
    p.size == 0 || q.size == 0 || p.start + p.size <= q.start || q.start + q.size <= p.start
  }

  predicate Inside(p: Placement, count: nat) {
    p.size == 0 || p.start + p.size <= count
  }

  function CoverCount(cs: seq<Consumer>, i: nat): nat {
    if cs == [] then 0 else CoverCount(cs[..|cs| - 1], i) + if Covers(cs[|cs| - 1].placement, i) then 1 else 0
  }

  function TotalSize(cs: seq<Consumer>): nat {
    if cs == [] then 0 else TotalSize(cs[..|cs| - 1]) + cs[|cs| - 1].placement.size
  }

  ghost predicate AllValid(cs: seq<Consumer>) {
    forall c :: c in cs ==> c.Valid()
  }

  lemma {:induction false} SumIsCoverCount(cs: seq<Consumer>, i: nat)
    requires AllValid(cs)
    ensures Sum(cs, MemSliceCounterName(i)) == CoverCount(cs, i)
  {
    if cs != [] {
      var last := cs[|cs| - 1];
      assert last in cs;
      assert forall c :: c in cs[..|cs| - 1] ==> c in cs;
      SumIsCoverCount(cs[..|cs| - 1], i);
      ConsumptionOfSlice(last.used, last.capacities, last.placement, i);
    }
  }

  lemma {:induction false} CoveredTwice(cs: seq<Consumer>, a: nat, b: nat, i: nat)
    requires a < b < |cs| && Covers(cs[a].placement, i) && Covers(cs[b].placement, i)
    ensures CoverCount(cs, i) >= 2
  {
    if b < |cs| - 1 {
      CoveredTwice(cs[..|cs| - 1], a, b, i);
    } else {
      CoveredOnce(cs[..|cs| - 1], a, i);
    }
  }

  lemma {:induction false} CoveredOnce(cs: seq<Consumer>, a: nat, i: nat)
    requires a < |cs| && Covers(cs[a].placement, i)
    ensures CoverCount(cs, i) >= 1
  {
    if a < |cs| - 1 {
      CoveredOnce(cs[..|cs| - 1], a, i);
    }
  }

  lemma {:induction false} NotCovered(cs: seq<Consumer>, i: nat)
    requires forall c :: c in cs ==> !Covers(c.placement, i)
    ensures CoverCount(cs, i) == 0
  {
    if cs != [] {
      assert cs[|cs| - 1] in cs;
      NotCovered(cs[..|cs| - 1], i);
    }
  }

  ghost predicate PairwiseDisjoint(cs: seq<Consumer>) {
    forall a, b :: 0 <= a < b < |cs| ==> Disjoint(cs[a].placement, cs[b].placement)
  }

  ghost predicate AllInside(cs: seq<Consumer>, count: nat) {
    forall c :: c in cs ==> Inside(c.placement, count)
  }

  lemma {:induction false} DisjointCoverAtMostOnce(cs: seq<Consumer>, i: nat)
    requires PairwiseDisjoint(cs)
    ensures CoverCount(cs, i) <= 1
  {
    if cs != [] {
      DisjointCoverAtMostOnce(cs[..|cs| - 1], i);
      if Covers(cs[|cs| - 1].placement, i) {
        forall c | c in cs[..|cs| - 1] ensures !Covers(c.placement, i) {
          var a :| 0 <= a < |cs| - 1 && cs[a] == c;
          assert Disjoint(cs[a].placement, cs[|cs| - 1].placement);
        }
        NotCovered(cs[..|cs| - 1], i);
      }
    }
  }

  /** The slice counters say exactly this about an allocation: no two placements overlap, and none
      reaches past the slices of the GPU. */
  lemma SliceCountersMeanDisjoint(shared: Counters, maxCapacities: Capacities, count: nat, cs: seq<Consumer>)
    requires IsConsumption(shared, maxCapacities, Placement(0, count)) && AllValid(cs)
    ensures SlicesFeasible(shared, cs) <==> PairwiseDisjoint(cs) && AllInside(cs, count)
  {
    forall i: nat
      ensures At(shared, MemSliceCounterName(i)) == if i < count then 1 else 0
      ensures Sum(cs, MemSliceCounterName(i)) == CoverCount(cs, i)
    {
      ConsumptionOfSlice(shared, maxCapacities, Placement(0, count), i);
      SumIsCoverCount(cs, i);
    }
    if SlicesFeasible(shared, cs) {
      FeasibleIsInside(shared, cs, count);
      FeasibleIsDisjoint(shared, cs, count);
    }
    if PairwiseDisjoint(cs) && AllInside(cs, count) {
      forall i: nat ensures Sum(cs, MemSliceCounterName(i)) <= At(shared, MemSliceCounterName(i)) {
        DisjointCoverAtMostOnce(cs, i);
        if i >= count {
          NotCovered(cs, i);
        }
      }
    }
  }

  ghost predicate CountsCover(shared: Counters, cs: seq<Consumer>, count: nat) {
    forall i: nat :: At(shared, MemSliceCounterName(i)) == (if i < count then 1 else 0) &&
                     Sum(cs, MemSliceCounterName(i)) == CoverCount(cs, i)
  }

  lemma FeasibleIsInside(shared: Counters, cs: seq<Consumer>, count: nat)
    requires SlicesFeasible(shared, cs) && CountsCover(shared, cs, count)
    ensures AllInside(cs, count)
  {
    forall c | c in cs ensures Inside(c.placement, count) {
      var a :| 0 <= a < |cs| && cs[a] == c;
      if c.placement.size > 0 {
        var last := c.placement.start + c.placement.size - 1;
        CoveredOnce(cs, a, last);
        assert Sum(cs, MemSliceCounterName(last)) <= At(shared, MemSliceCounterName(last));
      }
    }
  }

  lemma FeasibleIsDisjoint(shared: Counters, cs: seq<Consumer>, count: nat)
    requires SlicesFeasible(shared, cs) && CountsCover(shared, cs, count)
    ensures PairwiseDisjoint(cs)
  {
    forall a, b | 0 <= a < b < |cs| ensures Disjoint(cs[a].placement, cs[b].placement) {
      var p, q := cs[a].placement, cs[b].placement;
      if !Disjoint(p, q) {
        var i := if p.start < q.start then q.start else p.start;
        assert Sum(cs, MemSliceCounterName(i)) <= At(shared, MemSliceCounterName(i));
        CoveredTwice(cs, a, b, i);
      }
    }
  }

  function CoveredUpTo(cs: seq<Consumer>, n: nat): nat {
    if n == 0 then 0 else CoveredUpTo(cs, n - 1) + CoverCount(cs, n - 1)
  }

  function SlicesBelow(p: Placement, n: nat): nat {
    if n <= p.start then 0 else if n >= p.start + p.size then p.size else n - p.start
  }

  lemma {:induction false} CoveredUpToGrows(init: seq<Consumer>, last: Consumer, n: nat)
    ensures CoveredUpTo(init + [last], n) == CoveredUpTo(init, n) + SlicesBelow(last.placement, n)
  {
    if n > 0 {
      CoveredUpToGrows(init, last, n - 1);
      assert (init + [last])[..|init + [last]| - 1] == init;
    }
  }

  /** Counting the same cells by device or by slice gives the same number. */
  lemma {:induction false} SizesAreCoverage(cs: seq<Consumer>, count: nat)
    requires AllInside(cs, count)
    ensures TotalSize(cs) == CoveredUpTo(cs, count)
  {
    if cs == [] {
      NothingCovered(count);
    } else {
      var init, last := cs[..|cs| - 1], cs[|cs| - 1];
      assert last in cs && forall c :: c in init ==> c in cs;
      SizesAreCoverage(init, count);
      CoveredUpToGrows(init, last, count);
      assert cs == init + [last];
    }
  }

  lemma {:induction false} NothingCovered(n: nat)
    ensures CoveredUpTo([], n) == 0
  {
    if n > 0 {
      NothingCovered(n - 1);
    }
  }

  lemma {:induction false} CoverageIsBounded(cs: seq<Consumer>, n: nat)
    requires PairwiseDisjoint(cs)
    ensures CoveredUpTo(cs, n) <= n
  {
    if n > 0 {
      CoverageIsBounded(cs, n - 1);
      DisjointCoverAtMostOnce(cs, n - 1);
    }
  }

  /** A feasible allocation has disjoint placements, and their sizes fit into the GPU together. */
  lemma FeasibleAllocation(shared: Counters, maxCapacities: Capacities, count: nat, cs: seq<Consumer>)
    requires IsConsumption(shared, maxCapacities, Placement(0, count)) && AllValid(cs)
    requires Feasible(shared, cs)
    ensures PairwiseDisjoint(cs) && AllInside(cs, count)
    ensures TotalSize(cs) <= count
  {
    SliceCountersMeanDisjoint(shared, maxCapacities, count, cs);
    SizesAreCoverage(cs, count);
    CoverageIsBounded(cs, count);
  }

  /** Beside the full GPU only devices without a memory slice can be allocated. */
  lemma FullGpuExcludesPartitions(
    shared: Counters, maxCapacities: Capacities, count: nat, cs: seq<Consumer>, full: nat, other: nat)
    requires IsConsumption(shared, maxCapacities, Placement(0, count)) && AllValid(cs)
    requires Feasible(shared, cs)
    requires full < |cs| && other < |cs| && full != other
    requires cs[full].placement == Placement(0, count)
    ensures cs[other].placement.size == 0
  {
    FeasibleAllocation(shared, maxCapacities, count, cs);
    assert cs[other] in cs && Inside(cs[other].placement, count);
    var a, b := if full < other then full else other, if full < other then other else full;
    assert Disjoint(cs[a].placement, cs[b].placement);
  }

  /** Allocating the full GPU alone is always possible and leaves every counter at zero. */
  lemma FullGpuDrainsEveryCounter(shared: Counters, full: Consumer, maxCapacities: Capacities, count: nat, name: string)
    requires IsConsumption(shared, maxCapacities, Placement(0, count))
    requires full.Valid() && full.capacities == maxCapacities && full.placement == Placement(0, count)
    ensures At(shared, name) - Sum([full], name) == 0
  {
    var base :| CountsCapacities(base, maxCapacities) && shared == base + SliceCounters(0, count);
    var base' :| CountsCapacities(base', maxCapacities) && full.used == base' + SliceCounters(0, count);
    SameCapacityCounters(base, base', maxCapacities);
    assert [full][..0] == [];
  }

  lemma SameCapacityCounters(c: Counters, d: Counters, m: Capacities)
    requires CountsCapacities(c, m) && CountsCapacities(d, m)
    ensures c == d
  {
    forall k | k in c ensures k in d && c[k] == d[k] {
      var n :| n in m && CounterName(n) == k;
    }
    forall k | k in d ensures k in c {
      var n :| n in m && CounterName(n) == k;
    }
  }
}
