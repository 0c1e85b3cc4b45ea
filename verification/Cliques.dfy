/** Entries of daemons in a shared list, and the smallest free index that a new entry gets. */
module Cliques {
  import opened Basics

  datatype Status = Ready | NotReady

  /** One entry. `ComputeDomainDaemonInfo` and `ComputeDomainNode` have these same fields. */
  datatype DaemonInfo = DaemonInfo(nodeName: string, ipAddress: string, cliqueId: string, index: int, status: Status)

  function Indices(daemons: seq<DaemonInfo>): set<int> {
    set d <- daemons :: d.index
  }

  // --------------------------------------------------------------- least free index

  predicate IsLeastUnused(used: set<int>, i: nat) {
    i !in used && forall k: nat :: k < i ==> k in used
  }

  lemma {:induction false} InitialSegmentFits(used: set<int>, n: nat)
    requires forall k: nat :: k < n ==> k in used
    ensures n <= |used|
  {
    if n > 0 {
      var less := used - {n - 1};
      assert forall k: nat :: k < n - 1 ==> k in less;
      InitialSegmentFits(less, n - 1);
      assert used == less + {n - 1};
    }
  }

  function LeastUnusedFrom(used: set<int>, n: nat): (i: nat)
    requires forall k: nat :: k < n ==> k in used
    ensures IsLeastUnused(used, i)
    decreases |used| - n
  {
    InitialSegmentFits(used, n);
    if n in used then
      InitialSegmentFits(used, n + 1);
      LeastUnusedFrom(used, n + 1)
    else n
  }

  /** The smallest free index, if the domain still has room for it. */
  function NextIndex(used: set<int>, max: int): Option<nat> {
    var i := LeastUnusedFrom(used, 0);
    if i < max then Some(i) else None
  }

  /** It fails exactly when every index of the domain is taken, and never skips beyond the number of
      taken indices. */
  lemma NextIndexIsLeast(used: set<int>, max: int)
    ensures var r := NextIndex(used, max);
            && (r.None? <==> forall k: nat :: k < max ==> k in used)
            && (r.Some? ==> IsLeastUnused(used, r.value) && r.value < max && r.value <= |used|)
  {
    var i := LeastUnusedFrom(used, 0);
    InitialSegmentFits(used, i);
  }

  lemma {:induction false} FewIndices(daemons: seq<DaemonInfo>)
    ensures |Indices(daemons)| <= |daemons|
  {
    if daemons == [] {
      assert Indices(daemons) == {};
    } else {
      var init, last := daemons[..|daemons| - 1], daemons[|daemons| - 1];
      FewIndices(init);
      assert daemons == init + [last];
      assert Indices(daemons) == Indices(init) + {last.index};
    }
  }

  predicate DistinctIndices(daemons: seq<DaemonInfo>) {
    forall i, k :: 0 <= i < k < |daemons| ==> daemons[i].index != daemons[k].index
  }

  lemma {:induction false} AsManyIndices(daemons: seq<DaemonInfo>)
    requires DistinctIndices(daemons)
    ensures |Indices(daemons)| == |daemons|
  {
    if daemons == [] {
      assert Indices(daemons) == {};
    } else {
      var init, last := daemons[..|daemons| - 1], daemons[|daemons| - 1];
      AsManyIndices(init);
      assert daemons == init + [last];
      assert Indices(daemons) == Indices(init) + {last.index};
    }
  }

  function Segment(max: nat): (r: set<int>)
    ensures |r| == max && forall k :: k in r <==> 0 <= k < max
  {
    if max == 0 then {} else Segment(max - 1) + {max - 1}
  }

  lemma SameSizeSameSet(a: set<int>, b: set<int>)
    requires a <= b && |a| == |b|
    ensures a == b
  {
    assert b == a + (b - a);
    assert b - a == {};
  }

  lemma SubsetIsSmaller(a: set<int>, b: set<int>)
    requires a <= b
    ensures |a| <= |b|
  {
    assert b == a + (b - a);
  }

  // --------------------------------------------------------------------- the invariant

  predicate DistinctNames(daemons: seq<DaemonInfo>) {
    forall i, k :: 0 <= i < k < |daemons| ==> daemons[i].nodeName != daemons[k].nodeName
  }

  predicate Fits(d: DaemonInfo, cliqueId: string, max: int) {
    0 <= d.index < max && d.cliqueId == cliqueId
  }

  /** One entry per node, one node per index, every index within the domain. */
  predicate CliqueOk(daemons: seq<DaemonInfo>, cliqueId: string, max: int) {
    DistinctNames(daemons) && DistinctIndices(daemons) && forall d :: d in daemons ==> Fits(d, cliqueId, max)
  }

  /** Pigeonhole: with the invariant, no index is left exactly when the list has reached the maximum. */
  lemma NoIndexLeftIff(daemons: seq<DaemonInfo>, cliqueId: string, max: nat)
    requires CliqueOk(daemons, cliqueId, max)
    ensures |daemons| <= max
    ensures NextIndex(Indices(daemons), max).None? <==> |daemons| == max
  {
    var used := Indices(daemons);
    AsManyIndices(daemons);
    assert forall d :: d in daemons ==> Fits(d, cliqueId, max);
    assert used <= Segment(max);
    SubsetIsSmaller(used, Segment(max));
    NextIndexIsLeast(used, max);
    if |daemons| == max {
      SameSizeSameSet(used, Segment(max));
    }
    if forall k: nat :: k < max ==> k in used {
      InitialSegmentFits(used, max);
    }
  }

  // -------------------------------------------------------------------- list edits

  function Position(daemons: seq<DaemonInfo>, nodeName: string): (r: Option<nat>)
    ensures r.Some? ==> r.value < |daemons| && daemons[r.value].nodeName == nodeName
    ensures r.Some? ==> forall k :: 0 <= k < r.value ==> daemons[k].nodeName != nodeName
    ensures r.None? ==> forall k :: 0 <= k < |daemons| ==> daemons[k].nodeName != nodeName
  {
    if daemons == [] then None
    else
      var r := Position(daemons[..|daemons| - 1], nodeName);
      if r.Some? then r
      else if daemons[|daemons| - 1].nodeName == nodeName then Some(|daemons| - 1)
      else None
  }

  /** The entries that `keep` accepts, in order. */
  function Kept(daemons: seq<DaemonInfo>, keep: DaemonInfo -> bool): seq<DaemonInfo> {
    if daemons == [] then []
    else
      var init := Kept(daemons[..|daemons| - 1], keep);
      var last := daemons[|daemons| - 1];
      if keep(last) then init + [last] else init
  }

  function InClique(cliqueId: string): DaemonInfo -> bool {
    (d: DaemonInfo) => d.cliqueId == cliqueId
  }

  lemma {:induction false} KeptMembers(daemons: seq<DaemonInfo>, keep: DaemonInfo -> bool)
    ensures forall d :: d in Kept(daemons, keep) <==> d in daemons && keep(d)
  {
    if daemons != [] {
      KeptMembers(daemons[..|daemons| - 1], keep);
      assert daemons == daemons[..|daemons| - 1] + [daemons[|daemons| - 1]];
    }
  }

  /** Whatever is distinct between the entries stays distinct between those that are kept. */
  lemma {:induction false} KeptStayDistinct(daemons: seq<DaemonInfo>, keep: DaemonInfo -> bool)
    requires DistinctNames(daemons) && DistinctIndices(daemons)
    ensures DistinctNames(Kept(daemons, keep)) && DistinctIndices(Kept(daemons, keep))
  {
    if daemons != [] {
      var init := daemons[..|daemons| - 1];
      KeptStayDistinct(init, keep);
      KeptMembers(init, keep);
      forall i | 0 <= i < |Kept(init, keep)|
        ensures Kept(init, keep)[i].nodeName != daemons[|daemons| - 1].nodeName
        ensures Kept(init, keep)[i].index != daemons[|daemons| - 1].index
      {
        assert Kept(init, keep)[i] in init;
      }
    }
  }

  lemma {:induction false} KeptAll(daemons: seq<DaemonInfo>, keep: DaemonInfo -> bool)
    ensures |Kept(daemons, keep)| <= |daemons|
    ensures |Kept(daemons, keep)| == |daemons| <==> forall d :: d in daemons ==> keep(d)
  {
    if daemons != [] {
      KeptAll(daemons[..|daemons| - 1], keep);
      assert daemons == daemons[..|daemons| - 1] + [daemons[|daemons| - 1]];
    }
  }

  // ------------------------------------------------------- what an edit does to a list

  /** One entry is added at the end: it is not ready, and its index is the smallest that none of the rivals
      has. */
  ghost predicate Inserted(
    before: seq<DaemonInfo>, after: seq<DaemonInfo>, rivals: seq<DaemonInfo>, nodeName: string, podIp: string, cliqueId: string)
  {
    && |after| == |before| + 1 && after[..|before|] == before
    && var d := after[|before|];
       && d.nodeName == nodeName && d.ipAddress == podIp && d.cliqueId == cliqueId && d.status == NotReady
       && 0 <= d.index && (forall x :: x in rivals ==> x.index != d.index)
       && (forall k: nat :: k < d.index ==> k in Indices(rivals))
  }

  /** The first entry of this node is edited, and nothing else. */
  ghost predicate Edited(before: seq<DaemonInfo>, after: seq<DaemonInfo>, nodeName: string, edit: DaemonInfo -> DaemonInfo) {
    && |after| == |before|
    && forall i :: 0 <= i < |before| ==>
         after[i] == if before[i].nodeName == nodeName && (forall k :: 0 <= k < i ==> before[k].nodeName != nodeName)
                     then edit(before[i]) else before[i]
  }

  /** The node is listed, and the edit would change nothing. */
  ghost predicate IsUpToDate(daemons: seq<DaemonInfo>, nodeName: string, edit: DaemonInfo -> DaemonInfo) {
    Lists(daemons, nodeName) && Edited(daemons, daemons, nodeName, edit)
  }

  predicate Lists(daemons: seq<DaemonInfo>, nodeName: string) {
    exists d :: d in daemons && d.nodeName == nodeName
  }

  predicate ListsAt(daemons: seq<DaemonInfo>, nodeName: string, podIp: string) {
    exists d :: d in daemons && d.nodeName == nodeName && d.ipAddress == podIp
  }

  predicate ListsReady(daemons: seq<DaemonInfo>, nodeName: string) {
    exists d :: d in daemons && d.nodeName == nodeName && d.status == Ready
  }

  lemma PositionIsFirst(daemons: seq<DaemonInfo>, nodeName: string, edit: DaemonInfo -> DaemonInfo)
    ensures var p := Position(daemons, nodeName);
            && (p.Some? <==> Lists(daemons, nodeName))
            && (p.Some? ==> Edited(daemons, daemons[p.value := edit(daemons[p.value])], nodeName, edit))
  {
    var p := Position(daemons, nodeName);
    if p.Some? {
      assert daemons[p.value] in daemons;
    }
  }

  // ------------------------------------------------------------------------ loops

  method CollectIndices(daemons: seq<DaemonInfo>) returns (used: set<int>)
    ensures used == Indices(daemons)
  {
    used := {};
    for i := 0 to |daemons|
      invariant used == Indices(daemons[..i])
    {
      assert daemons[..i + 1] == daemons[..i] + [daemons[i]];
      used := used + {daemons[i].index};
    }
    assert daemons[..|daemons|] == daemons;
  }

  method FirstFree(used: set<int>) returns (nextIndex: nat)
    ensures IsLeastUnused(used, nextIndex) && nextIndex == LeastUnusedFrom(used, 0)
  {
    nextIndex := 0;
    while nextIndex in used
      invariant forall k: nat :: k < nextIndex ==> k in used
      decreases |used| - nextIndex
    {
      InitialSegmentFits(used, nextIndex + 1);
      nextIndex := nextIndex + 1;
    }
    LeastIsUnique(used, nextIndex, LeastUnusedFrom(used, 0));
  }

  lemma LeastIsUnique(used: set<int>, i: nat, k: nat)
    requires IsLeastUnused(used, i) && IsLeastUnused(used, k)
    ensures i == k
  {
    assert i < k ==> i in used;
    assert k < i ==> k in used;
  }

  /** The smallest index no entry has, at most the number of entries; an error exactly when all are taken. */
  method GetNextAvailableIndex(daemons: seq<DaemonInfo>, max: int) returns (r: Result<nat>)
    ensures r.Ok? ==> IsLeastUnused(Indices(daemons), r.value) && r.value < max && r.value <= |daemons|
    ensures r.Err? <==> forall k: nat :: k < max ==> k in Indices(daemons)
    ensures NextIndex(Indices(daemons), max) == if r.Ok? then Some(r.value) else None
  {
    var used := CollectIndices(daemons);
    var nextIndex := FirstFree(used);
    NextIndexIsLeast(used, max);
    FewIndices(daemons);
    if nextIndex < 0 || nextIndex >= max {
      return Err(OutOfRange);
    }
    return Ok(nextIndex);
  }

  method FindNode(daemons: seq<DaemonInfo>, nodeName: string) returns (r: Option<nat>)
    ensures r == Position(daemons, nodeName)
  {
    for i := 0 to |daemons|
      invariant forall k :: 0 <= k < i ==> daemons[k].nodeName != nodeName
    {
      if daemons[i].nodeName == nodeName {
        return Some(i);
      }
    }
    return None;
  }
}
