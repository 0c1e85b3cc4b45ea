/** The same entries kept in the status of the ComputeDomain itself, where several cliques share one list
    and the controller rewrites it from the pods. */
module NodeStatusProtocol {
  import opened Basics
  import opened ApiObjects
  import opened Cliques
  import opened CliqueProtocol

  datatype NodeOp =
    | SyncNode(nodeName: string, podIp: string, cliqueId: string)
    | SetNodeStatus(nodeName: string, status: Status)
    | RemoveNodeByIp(podIp: string)
    | Rebuild(fabricPods: seq<Pod>, nonFabricPods: seq<Pod>)

  /** Nodes without a clique are not limited to the IMEX domain's maximum. */
  function NextIndexInClique(nodes: seq<DaemonInfo>, cliqueId: string, max: int): Option<nat> {
    var used := Indices(Kept(nodes, InClique(cliqueId)));
    if cliqueId == "" then Some(LeastUnusedFrom(used, 0)) else NextIndex(used, max)
  }

  function IpsOf(pods: seq<Pod>): set<string> {
    set p <- pods | p.podIp != "" :: p.podIp
  }

  function FabricAt(ips: set<string>): DaemonInfo -> bool {
    (d: DaemonInfo) => d.cliqueId != "" && d.ipAddress in ips
  }

  function NodesFromPods(pods: seq<Pod>): seq<DaemonInfo> {
    if pods == [] then []
    else
      var init := NodesFromPods(pods[..|pods| - 1]);
      var last := pods[|pods| - 1];
      if last.nodeName == "" || last.podIp == "" then init
      else init + [DaemonInfo(last.nodeName, last.podIp, "", -1, if last.ready then Ready else NotReady)]
  }

  function WriteNodes(max: int, nodes: seq<DaemonInfo>, op: NodeOp): Option<seq<DaemonInfo>> {
    match op
    case SyncNode(nodeName, podIp, cliqueId) =>
      var p := Position(nodes, nodeName);
      if p.Some? then
        if nodes[p.value].ipAddress == podIp then None
        else Some(nodes[p.value := nodes[p.value].(ipAddress := podIp)])
      else
        var i := NextIndexInClique(nodes, cliqueId, max);
        if i.None? then None
        else Some(nodes + [DaemonInfo(nodeName, podIp, cliqueId, i.value, NotReady)])
    case SetNodeStatus(nodeName, status) =>
      var p := Position(nodes, nodeName);
      if p.None? || nodes[p.value].status == status then None
      else Some(nodes[p.value := nodes[p.value].(status := status)])
    case RemoveNodeByIp(podIp) =>
      var kept := Kept(nodes, NotAt(podIp));
      if |kept| == |nodes| then None else Some(kept)
    case Rebuild(fabricPods, nonFabricPods) =>
      Some(Kept(nodes, FabricAt(IpsOf(fabricPods))) + NodesFromPods(nonFabricPods))
  }

  function WriteNodesIn(max: int): (seq<DaemonInfo>, NodeOp) -> Option<seq<DaemonInfo>> {
    (nodes: seq<DaemonInfo>, op: NodeOp) => WriteNodes(max, nodes, op)
  }

  // ------------------------------------------------------------------ the invariant

  predicate SameFabricClique(a: DaemonInfo, b: DaemonInfo) {
    a.cliqueId == b.cliqueId != ""
  }

  /** Within every clique that has an id: one node per index, indices within the domain, and a node is
      listed at most once with a clique. */
  predicate NodesOk(max: int, nodes: seq<DaemonInfo>) {
    && (forall i, k :: 0 <= i < k < |nodes| && SameFabricClique(nodes[i], nodes[k]) ==> nodes[i].index != nodes[k].index)
    && (forall i, k :: 0 <= i < k < |nodes| && nodes[i].cliqueId != "" && nodes[k].cliqueId != "" ==>
          nodes[i].nodeName != nodes[k].nodeName)
    && (forall d :: d in nodes && d.cliqueId != "" ==> 0 <= d.index < max)
  }

  function NodesAreOk(max: int): seq<DaemonInfo> -> bool {
    (nodes: seq<DaemonInfo>) => NodesOk(max, nodes)
  }

  lemma {:induction false} KeptNodesAreOk(max: int, nodes: seq<DaemonInfo>, keep: DaemonInfo -> bool)
    requires NodesOk(max, nodes)
    ensures NodesOk(max, Kept(nodes, keep))
  {
    if nodes != [] {
      var init, last := nodes[..|nodes| - 1], nodes[|nodes| - 1];
      assert nodes == init + [last];
      KeptNodesAreOk(max, init, keep);
      KeptMembers(init, keep);
      forall i | 0 <= i < |Kept(init, keep)|
        ensures SameFabricClique(Kept(init, keep)[i], last) ==> Kept(init, keep)[i].index != last.index
        ensures Kept(init, keep)[i].cliqueId != "" && last.cliqueId != "" ==> Kept(init, keep)[i].nodeName != last.nodeName
      {
        assert Kept(init, keep)[i] in init;
      }
    }
  }

  lemma {:induction false} PodsHaveNoClique(pods: seq<Pod>)
    ensures forall d :: d in NodesFromPods(pods) ==> d.cliqueId == "" && d.index == -1
  {
    if pods != [] {
      PodsHaveNoClique(pods[..|pods| - 1]);
    }
  }

  lemma AppendNonFabric(max: int, nodes: seq<DaemonInfo>, more: seq<DaemonInfo>)
    requires NodesOk(max, nodes) && forall d :: d in more ==> d.cliqueId == ""
    ensures NodesOk(max, nodes + more)
  {
    forall k | |nodes| <= k < |nodes + more| ensures (nodes + more)[k].cliqueId == "" {
      assert (nodes + more)[k] in more;
    }
  }

  /** A clique's next index depends on the entries of that clique alone. */
  lemma CliquesAreIndependent(a: seq<DaemonInfo>, b: seq<DaemonInfo>, cliqueId: string, max: int)
    requires Kept(a, InClique(cliqueId)) == Kept(b, InClique(cliqueId))
    ensures NextIndexInClique(a, cliqueId, max) == NextIndexInClique(b, cliqueId, max)
  {
  }

  lemma {:induction false} KeptConcat(a: seq<DaemonInfo>, b: seq<DaemonInfo>, keep: DaemonInfo -> bool)
    ensures Kept(a + b, keep) == Kept(a, keep) + Kept(b, keep)
  {
    if b == [] {
      assert a + b == a;
    } else {
      assert (a + b)[..|a + b| - 1] == a + b[..|b| - 1];
      KeptConcat(a, b[..|b| - 1], keep);
    }
  }

  /** An insertion into one clique leaves the next index of every other clique as it was. */
  lemma InsertionIsLocal(max: int, nodes: seq<DaemonInfo>, op: NodeOp, other: string)
    requires op.SyncNode? && Position(nodes, op.nodeName).None? && WriteNodes(max, nodes, op).Some? && other != op.cliqueId
    ensures NextIndexInClique(WriteNodes(max, nodes, op).value, other, max) == NextIndexInClique(nodes, other, max)
  {
    var added := WriteNodes(max, nodes, op).value[|nodes|];
    KeptConcat(nodes, [added], InClique(other));
    assert Kept([added], InClique(other)) == [];
    CliquesAreIndependent(nodes, nodes + [added], other, max);
  }

  lemma EditKeepsNodesOk(max: int, nodes: seq<DaemonInfo>, p: nat, d: DaemonInfo)
    requires NodesOk(max, nodes) && p < |nodes|
    requires d.nodeName == nodes[p].nodeName && d.index == nodes[p].index && d.cliqueId == nodes[p].cliqueId
    ensures NodesOk(max, nodes[p := d])
  {
    assert nodes[p] in nodes;
  }

  lemma InsertKeepsNodesOk(max: int, nodes: seq<DaemonInfo>, d: DaemonInfo)
    requires NodesOk(max, nodes) && Position(nodes, d.nodeName).None?
    requires NextIndexInClique(nodes, d.cliqueId, max) == Some(d.index)
    ensures NodesOk(max, nodes + [d])
  {
    var own := Kept(nodes, InClique(d.cliqueId));
    KeptMembers(nodes, InClique(d.cliqueId));
    NextIndexIsLeast(Indices(own), max);
    forall i | 0 <= i < |nodes| ensures SameFabricClique(nodes[i], d) ==> nodes[i].index != d.index {
      assert nodes[i] in nodes;
      assert nodes[i].cliqueId == d.cliqueId ==> nodes[i] in own && nodes[i].index in Indices(own);
    }
  }

  lemma WriteKeepsNodesOk(max: int, nodes: seq<DaemonInfo>, op: NodeOp)
    requires NodesOk(max, nodes) && WriteNodes(max, nodes, op).Some?
    ensures NodesOk(max, WriteNodes(max, nodes, op).value)
  {
    match op
    case SyncNode(nodeName, podIp, cliqueId) =>
      var p := Position(nodes, nodeName);
      if p.Some? {
        EditKeepsNodesOk(max, nodes, p.value, nodes[p.value].(ipAddress := podIp));
      } else {
        InsertKeepsNodesOk(max, nodes, WriteNodes(max, nodes, op).value[|nodes|]);
      }
    case SetNodeStatus(nodeName, status) =>
      var p := Position(nodes, nodeName);
      EditKeepsNodesOk(max, nodes, p.value, nodes[p.value].(status := status));
    case RemoveNodeByIp(podIp) =>
      KeptNodesAreOk(max, nodes, NotAt(podIp));
    case Rebuild(fabricPods, nonFabricPods) =>
      KeptNodesAreOk(max, nodes, FabricAt(IpsOf(fabricPods)));
      PodsHaveNoClique(nonFabricPods);
      AppendNonFabric(max, Kept(nodes, FabricAt(IpsOf(fabricPods))), NodesFromPods(nonFabricPods));
  }

  /** Daemons of all cliques and the controller write one list, each from a copy however stale: no two
      entries of a clique that has an id ever share an index. */
  lemma EveryNodeListIsOk(max: int, steps: seq<Step<NodeOp>>, v: nat)
    requires v < |Replay(WriteNodesIn(max), [], steps)|
    ensures NodesOk(max, Replay(WriteNodesIn(max), [], steps)[v])
  {
    forall l, o | NodesAreOk(max)(l) && WriteNodesIn(max)(l, o).Some?
      ensures NodesAreOk(max)(WriteNodesIn(max)(l, o).value)
    {
      WriteKeepsNodesOk(max, l, o);
    }
    KeptByEveryWrite(WriteNodesIn(max), NodesAreOk(max), [], steps);
    assert NodesAreOk(max)(Replay(WriteNodesIn(max), [], steps)[v]);
  }

  /** Over every run: an entry with a clique, of a node that no daemon has set to ready, is ready in no
      version; an insertion is not ready. */
  lemma {:induction false} FabricReadyOnlyBySetStatus(max: int, steps: seq<Step<NodeOp>>, v: nat, d: DaemonInfo)
    requires v < |Replay(WriteNodesIn(max), [], steps)| && d in Replay(WriteNodesIn(max), [], steps)[v] && d.cliqueId != ""
    requires forall i :: 0 <= i < |steps| ==> steps[i].op != SetNodeStatus(d.nodeName, Ready)
    ensures d.status == NotReady
  {
    if steps != [] {
      var init, last := steps[..|steps| - 1], steps[|steps| - 1];
      var versions := Replay(WriteNodesIn(max), [], init);
      if v < |versions| {
        FabricReadyOnlyBySetStatus(max, init, v, d);
      } else if d.status == Ready {
        var e := ReadyBefore(max, versions[last.version], last.op, d);
        FabricReadyOnlyBySetStatus(max, init, last.version, e);
      }
    }
  }

  lemma ReadyBefore(max: int, nodes: seq<DaemonInfo>, op: NodeOp, d: DaemonInfo) returns (e: DaemonInfo)
    requires WriteNodes(max, nodes, op).Some? && d in WriteNodes(max, nodes, op).value && d.cliqueId != "" && d.status == Ready
    requires op != SetNodeStatus(d.nodeName, Ready)
    ensures e in nodes && e.nodeName == d.nodeName && e.cliqueId == d.cliqueId && e.status == Ready
  {
    var after := WriteNodes(max, nodes, op).value;
    match op
    case RemoveNodeByIp(podIp) =>
      KeptMembers(nodes, NotAt(podIp));
      e := d;
    case Rebuild(fabricPods, nonFabricPods) =>
      KeptMembers(nodes, FabricAt(IpsOf(fabricPods)));
      PodsHaveNoClique(nonFabricPods);
      e := d;
    case _ =>
      var i :| 0 <= i < |after| && after[i] == d;
      assert i < |nodes|;
      e := nodes[i];
  }

  /** Entries without a clique share the index -1 as soon as there are two of them. */
  lemma NonFabricNodesShareAnIndex(max: int, a: Pod, b: Pod) returns (steps: seq<Step<NodeOp>>)
    requires a.nodeName != "" && a.podIp != "" && b.nodeName != "" && b.podIp != ""
    ensures var versions := Replay(WriteNodesIn(max), [], steps);
            var last := versions[|versions| - 1];
            |last| == 2 && last[0].cliqueId == last[1].cliqueId == "" && last[0].index == last[1].index == -1
  {
    steps := [Step(0, Rebuild([], [a, b]))];
    assert steps[..0] == [];
    assert Replay(WriteNodesIn(max), [], steps[..0]) == [[]];
    var pods := [a, b];
    assert pods[..1] == [a] && pods[..1][..0] == [];
    assert NodesFromPods([a]) == [DaemonInfo(a.nodeName, a.podIp, "", -1, if a.ready then Ready else NotReady)];
    assert |NodesFromPods(pods)| == 2;
    var written := WriteNodes(max, [], Rebuild([], pods)).value;
    assert written == Kept([], FabricAt(IpsOf([]))) + NodesFromPods(pods);
    PodsHaveNoClique(pods);
    assert written == NodesFromPods(pods);
    assert written[0] in NodesFromPods(pods) && written[1] in NodesFromPods(pods);
  }

  // -------------------------------------------------------------------- the loops

  /** As for a clique object, but among the entries of this daemon's clique only, and without a limit
      for daemons that have no clique. */
  method GetNextAvailableIndexInClique(nodes: seq<DaemonInfo>, cliqueId: string, max: int) returns (r: Result<nat>)
    ensures NextIndexInClique(nodes, cliqueId, max) == if r.Ok? then Some(r.value) else None
    ensures r.Ok? ==> r.value <= |nodes| && IsLeastUnused(Indices(Kept(nodes, InClique(cliqueId))), r.value)
    ensures r.Err? <==> cliqueId != "" && forall k: nat :: k < max ==> k in Indices(Kept(nodes, InClique(cliqueId)))
  {
    var cliqueNodes: seq<DaemonInfo> := [];
    for i := 0 to |nodes|
      invariant cliqueNodes == Kept(nodes[..i], InClique(cliqueId))
    {
      assert nodes[..i + 1][..i] == nodes[..i];
      if nodes[i].cliqueId == cliqueId {
        cliqueNodes := cliqueNodes + [nodes[i]];
      }
    }
    assert nodes[..|nodes|] == nodes;
    KeptAll(nodes, InClique(cliqueId));
    var used := CollectIndices(cliqueNodes);
    FewIndices(cliqueNodes);
    var nextIndex := FirstFree(used);
    NextIndexIsLeast(used, max);
    InitialSegmentFits(used, nextIndex);
    if cliqueId == "" {
      return Ok(nextIndex);
    }
    if nextIndex < 0 || nextIndex >= max {
      return Err(OutOfRange);
    }
    return Ok(nextIndex);
  }

  type NodeList = ApiObject<seq<DaemonInfo>, NodeOp>

  /** One daemon of one clique; `copy` is what its mutation cache holds. */
  class ComputeDomainStatusManager {
    const nodeName: string
    const podIp: string
    const cliqueId: string
    const max: int
    const api: NodeList
    var cached: Option<Copy<seq<DaemonInfo>>>

    ghost predicate Valid()
      reads this, api
    {
      api.Valid() && api.write == WriteNodesIn(max) && (cached.Some? ==> api.Holds(cached.value))
    }

    constructor (nodeName: string, podIp: string, cliqueId: string, max: int, api: NodeList)
      requires api.Valid() && api.write == WriteNodesIn(max)
      ensures Valid() && this.api == api && this.nodeName == nodeName && this.podIp == podIp
      ensures this.cliqueId == cliqueId && this.max == max && cached.None?
    {
      this.nodeName, this.podIp, this.cliqueId, this.max, this.api := nodeName, podIp, cliqueId, max, api;
      this.cached := None;
    }

    method SyncNodeInfoToCD(cd: Copy<seq<DaemonInfo>>) returns (r: Result<Copy<seq<DaemonInfo>>>)
      requires Valid() && api.Holds(cd)
      modifies api, this`cached
      ensures Valid()
      ensures api.versions == old(api.versions) ||
              api.versions == Attempt(WriteNodesIn(max), old(api.versions), Step(cd.version, SyncNode(nodeName, podIp, cliqueId)))
      ensures r.Ok? ==> api.Holds(r.value) && ListsAt(r.value.content, nodeName, podIp)
      ensures r.Ok? && !Lists(cd.content, nodeName) ==>
                Inserted(cd.content, r.value.content, Kept(cd.content, InClique(cliqueId)), nodeName, podIp, cliqueId) &&
                (cliqueId != "" ==> r.value.content[|cd.content|].index < max)
      ensures r.Ok? && Lists(cd.content, nodeName) ==>
                Edited(cd.content, r.value.content, nodeName, (d: DaemonInfo) => d.(ipAddress := podIp))
      ensures r.Ok? && r.value != cd ==>
                r.value.version == cd.version + 1 && cached == Some(r.value) && api.versions == old(api.versions) + [r.value.content]
      ensures r.Ok? && r.value == cd ==> api.versions == old(api.versions)
      ensures IsUpToDate(cd.content, nodeName, (d: DaemonInfo) => d.(ipAddress := podIp)) ==> r == Ok(cd)
      ensures r.Err? ==> r.error == OutOfRange || cd.version < |old(api.versions)| - 1 || api.faults > old(api.faults)
      ensures r == Err(OutOfRange) <==>
                && !Lists(cd.content, nodeName) && cliqueId != ""
                && forall k: nat :: k < max ==> k in Indices(Kept(cd.content, InClique(cliqueId)))
    {
      var nodes := cd.content;
      ghost var edit := (d: DaemonInfo) => d.(ipAddress := podIp);
      PositionIsFirst(nodes, nodeName, edit);
      var mine := FindNode(nodes, nodeName);
      if mine.Some? && nodes[mine.value].ipAddress == podIp {
        assert nodes[mine.value] in cd.content;
        assert nodes[mine.value := edit(nodes[mine.value])] == nodes;
        return Ok(cd);
      }
      if mine.None? {
        var nextIndex := GetNextAvailableIndexInClique(nodes, cliqueId, max);
        if nextIndex.Err? {
          return Err(OutOfRange);
        }
        nodes := nodes + [DaemonInfo(nodeName, podIp, cliqueId, nextIndex.value, NotReady)];
        mine := Some(|nodes| - 1);
      }
      nodes := nodes[mine.value := nodes[mine.value].(ipAddress := podIp)];
      assert nodes[mine.value] in nodes;
      if Position(cd.content, nodeName).None? {
        assert nodes == cd.content + [nodes[mine.value]];
      }
      r := api.Update(cd, nodes, SyncNode(nodeName, podIp, cliqueId));
      if r.Ok? {
        cached := Some(r.value);
      }
    }

    method RemoveNodeFromComputeDomain() returns (r: Result<()>)
      requires Valid()
      modifies api, this`cached
      ensures Valid()
      ensures api.versions == old(api.versions) ||
              (old(cached).Some? && api.versions ==
               Attempt(WriteNodesIn(max), old(api.versions), Step(old(cached).value.version, RemoveNodeByIp(podIp))))
      ensures r.Ok? && old(cached).Some? ==>
                && cached.Some? && (forall d :: d in cached.value.content <==> d in old(cached).value.content && d.ipAddress != podIp)
                && (api.versions == if cached == old(cached) then old(api.versions) else old(api.versions) + [cached.value.content])
      ensures r.Err? ==> old(cached).Some? && (old(cached).value.version < |old(api.versions)| - 1 || api.faults > old(api.faults))
    {
      if cached.None? {
        return Ok(());
      }
      var cd := cached.value;
      var nodes: seq<DaemonInfo> := [];
      for i := 0 to |cd.content|
        invariant nodes == Kept(cd.content[..i], NotAt(podIp))
      {
        assert cd.content[..i + 1][..i] == cd.content[..i];
        if cd.content[i].ipAddress != podIp {
          nodes := nodes + [cd.content[i]];
        }
      }
      assert cd.content[..|cd.content|] == cd.content;
      KeptMembers(cd.content, NotAt(podIp));
      KeptAll(cd.content, NotAt(podIp));
      if |nodes| == |cd.content| {
        return Ok(());
      }
      var updated :- api.Update(cd, nodes, RemoveNodeByIp(podIp));
      cached := Some(updated);
      return Ok(());
    }

    method UpdateNodeStatus(ready: bool) returns (r: Result<()>)
      requires Valid()
      modifies api, this`cached
      ensures Valid()
      ensures var status := if ready then Ready else NotReady;
              api.versions == old(api.versions) ||
              (old(cached).Some? && api.versions ==
               Attempt(WriteNodesIn(max), old(api.versions), Step(old(cached).value.version, SetNodeStatus(nodeName, status))))
      ensures old(cached).None? || !Lists(old(cached).value.content, nodeName) ==> r == Err(NotFound) && api.versions == old(api.versions)
      ensures r.Ok? ==>
                && old(cached).Some? && cached.Some? && Lists(old(cached).value.content, nodeName)
                && Edited(old(cached).value.content, cached.value.content, nodeName,
                          (d: DaemonInfo) => d.(status := if ready then Ready else NotReady))
                && (api.versions == if cached == old(cached) then old(api.versions) else old(api.versions) + [cached.value.content])
      ensures old(cached).Some? &&
              IsUpToDate(old(cached).value.content, nodeName, (d: DaemonInfo) => d.(status := if ready then Ready else NotReady)) ==>
                r.Ok? && cached == old(cached)
      ensures r.Err? && old(cached).Some? && Lists(old(cached).value.content, nodeName) ==>
                old(cached).value.version < |old(api.versions)| - 1 || api.faults > old(api.faults)
    {
      var status := if ready then Ready else NotReady;
      ghost var edit := (d: DaemonInfo) => d.(status := if ready then Ready else NotReady);
      if cached.None? {
        return Err(NotFound);
      }
      var cd := cached.value;
      PositionIsFirst(cd.content, nodeName, edit);
      var mine := FindNode(cd.content, nodeName);
      if mine.None? {
        return Err(NotFound);
      }
      if cd.content[mine.value].status == status {
        assert cd.content[mine.value := edit(cd.content[mine.value])] == cd.content;
        return Ok(());
      }
      var nodes := cd.content[mine.value := cd.content[mine.value].(status := status)];
      var updated :- api.Update(cd, nodes, SetNodeStatus(nodeName, status));
      cached := Some(updated);
      return Ok(());
    }
  }

  /** The entries are those of pods with a node and an address, ready exactly if the pod is. */
  ghost predicate ListsPods(nodes: seq<DaemonInfo>, pods: seq<Pod>) {
    forall d :: d in nodes <==>
      exists p :: p in pods && p.nodeName != "" && p.podIp != "" &&
                  d == DaemonInfo(p.nodeName, p.podIp, "", -1, if p.ready then Ready else NotReady)
  }

  lemma {:induction false} PodsAreListed(pods: seq<Pod>)
    ensures var nodes := NodesFromPods(pods); |nodes| <= |pods| && ListsPods(nodes, pods)
  {
    if pods != [] {
      var init, last := pods[..|pods| - 1], pods[|pods| - 1];
      assert pods == init + [last];
      PodsAreListed(init);
    }
  }

  method BuildNodesFromPods(pods: seq<Pod>) returns (nodes: seq<DaemonInfo>)
    ensures nodes == NodesFromPods(pods)
  {
    nodes := [];
    for i := 0 to |pods|
      invariant nodes == NodesFromPods(pods[..i])
    {
      var pod := pods[i];
      assert pods[..i + 1][..i] == pods[..i];
      if pod.nodeName == "" || pod.podIp == "" {
        continue;
      }
      var status := NotReady;
      if pod.ready {
        status := Ready;
      }
      nodes := nodes + [DaemonInfo(pod.nodeName, pod.podIp, "", -1, status)];
    }
    assert pods[..|pods|] == pods;
  }

  method GetNonStaleFabricNodes(existing: seq<DaemonInfo>, fabricPods: seq<Pod>) returns (kept: seq<DaemonInfo>)
    ensures kept == Kept(existing, FabricAt(IpsOf(fabricPods)))
    ensures forall d :: d in kept <==> d in existing && d.cliqueId != "" && d.ipAddress != "" &&
                                       exists p :: p in fabricPods && p.podIp == d.ipAddress
  {
    var ips: set<string> := {};
    for i := 0 to |fabricPods|
      invariant ips == IpsOf(fabricPods[..i])
    {
      assert fabricPods[..i + 1] == fabricPods[..i] + [fabricPods[i]];
      if fabricPods[i].podIp != "" {
        ips := ips + {fabricPods[i].podIp};
      }
    }
    assert fabricPods[..|fabricPods|] == fabricPods;
    kept := [];
    for i := 0 to |existing|
      invariant kept == Kept(existing[..i], FabricAt(ips))
    {
      var node := existing[i];
      assert existing[..i + 1][..i] == existing[..i];
      if node.cliqueId == "" {
        continue;
      }
      if node.ipAddress in ips {
        kept := kept + [node];
      }
    }
    assert existing[..|existing|] == existing;
    KeptMembers(existing, FabricAt(ips));
  }

  function NodesByName(nodes: seq<DaemonInfo>): map<string, DaemonInfo> {
    if nodes == [] then map[]
    else
      var last := nodes[|nodes| - 1];
      NodesByName(nodes[..|nodes| - 1])[last.nodeName := last]
  }

  method CollectByName(nodes: seq<DaemonInfo>) returns (byName: map<string, DaemonInfo>)
    ensures byName == NodesByName(nodes)
  {
    byName := map[];
    for i := 0 to |nodes|
      invariant byName == NodesByName(nodes[..i])
    {
      assert nodes[..i + 1][..i] == nodes[..i];
      byName := byName[nodes[i].nodeName := nodes[i]];
    }
    assert nodes[..|nodes|] == nodes;
  }

  lemma {:induction false} ByNameHolds(nodes: seq<DaemonInfo>)
    requires DistinctNames(nodes)
    ensures forall d :: d in nodes <==> d.nodeName in NodesByName(nodes) && NodesByName(nodes)[d.nodeName] == d
    ensures forall n :: n in NodesByName(nodes) ==> NodesByName(nodes)[n].nodeName == n
  {
    if nodes != [] {
      var init, last := nodes[..|nodes| - 1], nodes[|nodes| - 1];
      assert nodes == init + [last];
      ByNameHolds(init);
      forall d | d in init ensures d.nodeName != last.nodeName {
        var i :| 0 <= i < |init| && init[i] == d;
        assert nodes[i] == d;
      }
    }
  }

  lemma SameByName(a: seq<DaemonInfo>, b: seq<DaemonInfo>)
    requires NodesByName(a) == NodesByName(b)
    ensures DistinctNames(a) && DistinctNames(b) ==> forall d :: d in a <==> d in b
  {
    if DistinctNames(a) && DistinctNames(b) {
      ByNameHolds(a);
      ByNameHolds(b);
    }
  }

  /** The controller's rewrite of the whole list, from the copy it holds. It is skipped when every node
      would keep its entry. */
  method SyncNodes(max: int, api: NodeList, copy: Copy<seq<DaemonInfo>>,
                   fabricPods: seq<Pod>, nonFabricPods: seq<Pod>) returns (r: Result<()>)
    requires api.Valid() && api.write == WriteNodesIn(max) && api.Holds(copy)
    modifies api
    ensures api.Valid()
    ensures api.versions == old(api.versions) ||
            api.versions == Attempt(WriteNodesIn(max), old(api.versions), Step(copy.version, Rebuild(fabricPods, nonFabricPods)))
    ensures r.Ok? ==> var written := WriteNodes(max, copy.content, Rebuild(fabricPods, nonFabricPods)).value;
              || api.versions == old(api.versions) + [written]
              || (api.versions == old(api.versions) && NodesByName(written) == NodesByName(copy.content))
    ensures NodesByName(WriteNodes(max, copy.content, Rebuild(fabricPods, nonFabricPods)).value) == NodesByName(copy.content) ==>
              r.Ok? && api.versions == old(api.versions)
    ensures r.Ok? && api.versions == old(api.versions) ==>
              var written := Kept(copy.content, FabricAt(IpsOf(fabricPods))) + NodesFromPods(nonFabricPods);
              DistinctNames(copy.content) && DistinctNames(written) ==> forall d :: d in written <==> d in copy.content
    ensures r.Err? ==> copy.version < |old(api.versions)| - 1 || api.faults > old(api.faults)
  {
    hide FabricAt, NodesByName, Kept;
    var fabricNodes := GetNonStaleFabricNodes(copy.content, fabricPods);
    var nonFabricNodes := BuildNodesFromPods(nonFabricPods);
    var newNodes := fabricNodes + nonFabricNodes;
    var before := CollectByName(copy.content);
    var after := CollectByName(newNodes);
    if before == after {
      SameByName(copy.content, newNodes);
      return Ok(());
    }
    var _ :- api.Update(copy, newNodes, Rebuild(fabricPods, nonFabricPods));
    return Ok(());
  }

  // ---------------------------------------------------------- rebuilding from the cliques

  function NodesFromCliques(cliques: seq<seq<DaemonInfo>>): seq<DaemonInfo> {
    if cliques == [] then [] else NodesFromCliques(cliques[..|cliques| - 1]) + cliques[|cliques| - 1]
  }

  lemma {:induction false} CliqueNodeComesFromClique(cliques: seq<seq<DaemonInfo>>, d: DaemonInfo) returns (c: nat)
    requires d in NodesFromCliques(cliques)
    ensures c < |cliques| && d in cliques[c]
  {
    var n := |cliques| - 1;
    if d in cliques[n] {
      c := n;
    } else {
      c := CliqueNodeComesFromClique(cliques[..n], d);
    }
  }

  /** Where the clique objects are in use, the list is their concatenation; different cliques with sound
      objects give a list in which (clique, index) is unique. */
  lemma {:induction false} CliquesAreMergedSoundly(cliques: seq<seq<DaemonInfo>>, ids: seq<string>, max: int)
    requires |ids| == |cliques| && forall i, k :: 0 <= i < k < |ids| ==> ids[i] != ids[k]
    requires forall i :: 0 <= i < |cliques| ==> CliqueOk(cliques[i], ids[i], max)
    ensures var nodes := NodesFromCliques(cliques);
            && (forall i, k :: 0 <= i < k < |nodes| && nodes[i].cliqueId == nodes[k].cliqueId ==> nodes[i].index != nodes[k].index)
            && (forall d :: d in nodes ==> 0 <= d.index < max)
  {
    if cliques != [] {
      var n := |cliques| - 1;
      CliquesAreMergedSoundly(cliques[..n], ids[..n], max);
      var front, back := NodesFromCliques(cliques[..n]), cliques[n];
      forall i | 0 <= i < |front| ensures front[i].cliqueId != ids[n] {
        var c := CliqueNodeComesFromClique(cliques[..n], front[i]);
        assert CliqueOk(cliques[c], ids[c], max) && front[i] in cliques[c];
        assert Fits(front[i], ids[c], max);
      }
      assert CliqueOk(back, ids[n], max);
      forall k | 0 <= k < |back| ensures Fits(back[k], ids[n], max) {
        assert back[k] in back;
      }
    }
  }
}
