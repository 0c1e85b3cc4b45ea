/** The compute-domain clique: daemons insert, update and remove their entries in one shared object while
    the controller deletes stale ones. */
module CliqueProtocol {
  import opened Basics
  import opened ApiObjects
  import opened Cliques

  datatype Domain = Domain(cliqueId: string, max: int)

  datatype Op =
    | Sync(nodeName: string, podIp: string)
    | SetStatus(nodeName: string, status: Status)
    | RemoveByIp(podIp: string)
    | Cleanup(runningNodes: set<string>)

  function NotAt(podIp: string): DaemonInfo -> bool {
    (d: DaemonInfo) => d.ipAddress != podIp
  }

  function RunningOn(nodes: set<string>): DaemonInfo -> bool {
    (d: DaemonInfo) => d.nodeName in nodes
  }

  /** What an operation wants to write, given the copy it works from. */
  function Write(domain: Domain, daemons: seq<DaemonInfo>, op: Op): Option<seq<DaemonInfo>> {
    match op
    case Sync(nodeName, podIp) =>
      var p := Position(daemons, nodeName);
      if p.Some? then
        if daemons[p.value].ipAddress == podIp then None
        else Some(daemons[p.value := daemons[p.value].(ipAddress := podIp)])
      else
        var i := NextIndex(Indices(daemons), domain.max);
        if i.None? then None
        else Some(daemons + [DaemonInfo(nodeName, podIp, domain.cliqueId, i.value, NotReady)])
    case SetStatus(nodeName, status) =>
      var p := Position(daemons, nodeName);
      if p.None? || daemons[p.value].status == status then None
      else Some(daemons[p.value := daemons[p.value].(status := status)])
    case RemoveByIp(podIp) =>
      Some(Kept(daemons, NotAt(podIp)))
    case Cleanup(runningNodes) =>
      var kept := Kept(daemons, RunningOn(runningNodes));
      if |kept| == |daemons| then None else Some(kept)
  }

  function WriteIn(domain: Domain): (seq<DaemonInfo>, Op) -> Option<seq<DaemonInfo>> {
    (daemons: seq<DaemonInfo>, op: Op) => Write(domain, daemons, op)
  }

  function IsOk(domain: Domain): seq<DaemonInfo> -> bool {
    (daemons: seq<DaemonInfo>) => CliqueOk(daemons, domain.cliqueId, domain.max)
  }

  // ------------------------------------------------------------------- the invariant

  lemma EditKeepsOk(domain: Domain, daemons: seq<DaemonInfo>, p: nat, d: DaemonInfo)
    requires CliqueOk(daemons, domain.cliqueId, domain.max) && p < |daemons|
    requires d.nodeName == daemons[p].nodeName && d.index == daemons[p].index && d.cliqueId == daemons[p].cliqueId
    ensures CliqueOk(daemons[p := d], domain.cliqueId, domain.max)
  {
    assert daemons[p] in daemons;
  }

  lemma KeptIsOk(domain: Domain, daemons: seq<DaemonInfo>, keep: DaemonInfo -> bool)
    requires CliqueOk(daemons, domain.cliqueId, domain.max)
    ensures CliqueOk(Kept(daemons, keep), domain.cliqueId, domain.max)
  {
    KeptStayDistinct(daemons, keep);
    KeptMembers(daemons, keep);
  }

  lemma WriteKeepsOk(domain: Domain, daemons: seq<DaemonInfo>, op: Op)
    requires CliqueOk(daemons, domain.cliqueId, domain.max) && Write(domain, daemons, op).Some?
    ensures CliqueOk(Write(domain, daemons, op).value, domain.cliqueId, domain.max)
  {
    match op
    case Sync(nodeName, podIp) =>
      var p := Position(daemons, nodeName);
      if p.Some? {
        EditKeepsOk(domain, daemons, p.value, daemons[p.value].(ipAddress := podIp));
      } else {
        var i := NextIndex(Indices(daemons), domain.max).value;
        NextIndexIsLeast(Indices(daemons), domain.max);
        assert forall d :: d in daemons ==> d.index in Indices(daemons);
      }
    case SetStatus(nodeName, status) =>
      var p := Position(daemons, nodeName);
      EditKeepsOk(domain, daemons, p.value, daemons[p.value].(status := status));
    case RemoveByIp(podIp) =>
      KeptIsOk(domain, daemons, NotAt(podIp));
    case Cleanup(runningNodes) =>
      KeptIsOk(domain, daemons, RunningOn(runningNodes));
  }

  /** Under any interleaving of attempts, from copies however stale, every version of the list has one
      entry per node, one node per index, and every index within the domain. */
  lemma EveryVersionIsOk(domain: Domain, steps: seq<Step<Op>>, v: nat)
    requires v < |Replay(WriteIn(domain), [], steps)|
    ensures CliqueOk(Replay(WriteIn(domain), [], steps)[v], domain.cliqueId, domain.max)
  {
    forall l, o | IsOk(domain)(l) && WriteIn(domain)(l, o).Some? ensures IsOk(domain)(WriteIn(domain)(l, o).value) {
      WriteKeepsOk(domain, l, o);
    }
    KeptByEveryWrite(WriteIn(domain), IsOk(domain), [], steps);
    assert IsOk(domain)(Replay(WriteIn(domain), [], steps)[v]);
  }

  // ----------------------------------------------------------------- who becomes ready

  /** A write makes a node ready exactly if it sets that node's status to ready; an insertion, a new address or
      a removal never does. */
  lemma TurnsReadyIff(domain: Domain, daemons: seq<DaemonInfo>, op: Op, nodeName: string)
    requires CliqueOk(daemons, domain.cliqueId, domain.max) && Write(domain, daemons, op).Some?
    ensures ListsReady(Write(domain, daemons, op).value, nodeName) && !ListsReady(daemons, nodeName) <==>
            op == SetStatus(nodeName, Ready)
  {
    var after := Write(domain, daemons, op).value;
    match op
    case Sync(name, podIp) =>
      var p := Position(daemons, name);
      assert forall d :: d in after && d.status == Ready ==> exists e :: e in daemons && e.nodeName == d.nodeName && e.status == Ready;
    case SetStatus(name, status) =>
      var p := Position(daemons, name).value;
      assert after[p] in after && daemons[p] in daemons;
      assert forall d :: d in after && d != after[p] ==> d in daemons;
    case RemoveByIp(podIp) =>
      KeptMembers(daemons, NotAt(podIp));
    case Cleanup(runningNodes) =>
      KeptMembers(daemons, RunningOn(runningNodes));
  }

  /** Over every run: a node that nobody has set to ready is listed as ready in no version. */
  lemma {:induction false} ReadyOnlyBySetStatus(domain: Domain, steps: seq<Step<Op>>, v: nat, nodeName: string)
    requires v < |Replay(WriteIn(domain), [], steps)|
    requires forall i :: 0 <= i < |steps| ==> steps[i].op != SetStatus(nodeName, Ready)
    ensures !ListsReady(Replay(WriteIn(domain), [], steps)[v], nodeName)
  {
    if steps != [] {
      var init, last := steps[..|steps| - 1], steps[|steps| - 1];
      var versions := Replay(WriteIn(domain), [], init);
      if v < |versions| {
        ReadyOnlyBySetStatus(domain, init, v, nodeName);
      } else {
        ReadyOnlyBySetStatus(domain, init, last.version, nodeName);
        EveryVersionIsOk(domain, init, last.version);
        TurnsReadyIff(domain, versions[last.version], last.op, nodeName);
      }
    }
  }

  // --------------------------------------------------------------- an index is stable

  /** The index of a node's entry. */
  function IndexOf(daemons: seq<DaemonInfo>, nodeName: string): Option<int> {
    var p := Position(daemons, nodeName);
    if p.Some? then Some(daemons[p.value].index) else None
  }

  lemma IndexOfMember(daemons: seq<DaemonInfo>, d: DaemonInfo)
    requires DistinctNames(daemons) && d in daemons
    ensures IndexOf(daemons, d.nodeName) == Some(d.index)
  {
    var i :| 0 <= i < |daemons| && daemons[i] == d;
    var p := Position(daemons, d.nodeName).value;
    assert !(p < i) && !(i < p);
  }

  lemma WriteKeepsIndex(domain: Domain, daemons: seq<DaemonInfo>, op: Op, nodeName: string)
    requires CliqueOk(daemons, domain.cliqueId, domain.max) && Write(domain, daemons, op).Some?
    ensures var after := Write(domain, daemons, op).value;
            IndexOf(daemons, nodeName).Some? && IndexOf(after, nodeName).Some? ==>
              IndexOf(after, nodeName) == IndexOf(daemons, nodeName)
  {
    var after := Write(domain, daemons, op).value;
    WriteKeepsOk(domain, daemons, op);
    if IndexOf(daemons, nodeName).Some? && IndexOf(after, nodeName).Some? {
      var d := after[Position(after, nodeName).value];
      var e := EntryBefore(domain, daemons, op, d);
      IndexOfMember(daemons, e);
    }
  }

  /** An entry after a write of a node that was listed before comes from that node's entry. */
  lemma EntryBefore(domain: Domain, daemons: seq<DaemonInfo>, op: Op, d: DaemonInfo) returns (e: DaemonInfo)
    requires CliqueOk(daemons, domain.cliqueId, domain.max) && Write(domain, daemons, op).Some?
    requires d in Write(domain, daemons, op).value && Position(daemons, d.nodeName).Some?
    ensures e in daemons && e.nodeName == d.nodeName && e.index == d.index
  {
    var after := Write(domain, daemons, op).value;
    match op
    case RemoveByIp(podIp) =>
      KeptMembers(daemons, NotAt(podIp));
      e := d;
    case Cleanup(runningNodes) =>
      KeptMembers(daemons, RunningOn(runningNodes));
      e := d;
    case _ =>
      var i :| 0 <= i < |after| && after[i] == d;
      e := daemons[i];
  }

  /** As long as a node's entry persists its index, and with it its DNS name, stays what it was. */
  lemma {:induction false} IndexNeverChanges(domain: Domain, steps: seq<Step<Op>>, v: nat, w: nat, nodeName: string)
    requires v <= w < |Replay(WriteIn(domain), [], steps)|
    requires forall u :: v <= u <= w ==> IndexOf(Replay(WriteIn(domain), [], steps)[u], nodeName).Some?
    ensures IndexOf(Replay(WriteIn(domain), [], steps)[w], nodeName) ==
            IndexOf(Replay(WriteIn(domain), [], steps)[v], nodeName)
  {
    var versions := Replay(WriteIn(domain), [], steps);
    if v < w {
      IndexNeverChanges(domain, steps, v, w - 1, nodeName);
      var op := ConsecutiveVersions(WriteIn(domain), [], steps, w - 1);
      EveryVersionIsOk(domain, steps, w - 1);
      WriteKeepsIndex(domain, versions[w - 1], op, nodeName);
    }
  }

  // ------------------------------------------------------------------------ a daemon

  type CliqueObject = ApiObject<seq<DaemonInfo>, Op>
  type Clique = Copy<seq<DaemonInfo>>

  function IpSet(daemons: seq<DaemonInfo>): set<string> {
    set d <- daemons :: d.ipAddress
  }

  predicate SameAddresses(a: seq<DaemonInfo>, b: seq<DaemonInfo>) {
    && (forall d :: d in a ==> exists e :: e in b && e.ipAddress == d.ipAddress)
    && (forall e :: e in b ==> exists d :: d in a && d.ipAddress == e.ipAddress)
  }

  lemma SameSetSameAddresses(a: seq<DaemonInfo>, b: seq<DaemonInfo>)
    ensures IpSet(a) == IpSet(b) <==> SameAddresses(a, b)
  {
    assert forall d :: d in a ==> d.ipAddress in IpSet(a);
    assert forall e :: e in b ==> e.ipAddress in IpSet(b);
    if SameAddresses(a, b) {
      assert forall ip :: ip in IpSet(a) <==> ip in IpSet(b);
    }
  }

  /** The manager of one daemon. Its cache holds this or an earlier version of the clique. */
  class ComputeDomainCliqueManager {
    const domain: Domain
    const nodeName: string
    const podIp: string
    const api: CliqueObject
    var cached: Option<Clique>
    var previousDaemons: seq<DaemonInfo>
    var pushed: seq<seq<DaemonInfo>>

    ghost predicate Valid()
      reads this, api
    {
      && api.Valid() && api.write == WriteIn(domain) && api.first == []
      && (cached.Some? ==> api.Holds(cached.value))
    }

    constructor (domain: Domain, nodeName: string, podIp: string, api: CliqueObject)
      requires api.Valid() && api.write == WriteIn(domain) && api.first == []
      ensures Valid() && this.domain == domain && this.nodeName == nodeName && this.podIp == podIp && this.api == api
      ensures cached.None? && previousDaemons == [] && pushed == []
    {
      this.domain, this.nodeName, this.podIp, this.api := domain, nodeName, podIp, api;
      this.cached, this.previousDaemons, this.pushed := None, [], [];
    }

    /** The informer delivers some version, not necessarily the latest. */
    method Observe(version: nat)
      requires Valid() && version < |api.versions|
      modifies this`cached
      ensures Valid() && cached == Some(Copy(version, api.versions[version]))
    {
      cached := Some(Copy(version, api.versions[version]));
    }

    /** A node that was not listed gets an entry at the end, not ready and with the smallest free index; of one
        that was listed the address changes and nothing else. The call fails for want of an index exactly
        when the copy has none left, and otherwise only from a stale copy or because the request failed. */
    method SyncDaemonInfoToClique(clique: Clique) returns (r: Result<Clique>)
      requires Valid() && api.Holds(clique)
      modifies api, this`cached
      ensures Valid()
      ensures api.versions == old(api.versions) ||
              api.versions == Attempt(WriteIn(domain), old(api.versions), Step(clique.version, Sync(nodeName, podIp)))
      ensures r.Ok? ==> api.Holds(r.value) && ListsAt(r.value.content, nodeName, podIp)
      ensures r.Ok? && !Lists(clique.content, nodeName) ==>
                Inserted(clique.content, r.value.content, clique.content, nodeName, podIp, domain.cliqueId) &&
                r.value.content[|clique.content|].index < domain.max
      ensures r.Ok? && Lists(clique.content, nodeName) ==>
                Edited(clique.content, r.value.content, nodeName, (d: DaemonInfo) => d.(ipAddress := podIp))
      ensures r.Ok? && r.value != clique ==>
                r.value.version == clique.version + 1 && cached == Some(r.value) && api.versions == old(api.versions) + [r.value.content]
      ensures r.Ok? && r.value == clique ==> api.versions == old(api.versions)
      ensures IsUpToDate(clique.content, nodeName, (d: DaemonInfo) => d.(ipAddress := podIp)) ==> r == Ok(clique)
      ensures r.Err? ==>
                r.error == OutOfRange || clique.version < |old(api.versions)| - 1 || api.faults > old(api.faults)
      ensures r == Err(OutOfRange) <==>
                Position(clique.content, nodeName).None? && forall k: nat :: k < domain.max ==> k in Indices(clique.content)
    {
      var daemons := clique.content;
      ghost var edit := (d: DaemonInfo) => d.(ipAddress := podIp);
      PositionIsFirst(daemons, nodeName, edit);
      var mine := FindNode(daemons, nodeName);
      if mine.Some? && daemons[mine.value].ipAddress == podIp {
        assert daemons[mine.value] in clique.content;
        assert daemons[mine.value := edit(daemons[mine.value])] == daemons;
        return Ok(clique);
      }
      if mine.None? {
        var nextIndex := GetNextAvailableIndex(daemons, domain.max);
        if nextIndex.Err? {
          return Err(OutOfRange);
        }
        daemons := daemons + [DaemonInfo(nodeName, podIp, domain.cliqueId, nextIndex.value, NotReady)];
        mine := Some(|daemons| - 1);
      }
      daemons := daemons[mine.value := daemons[mine.value].(ipAddress := podIp)];
      assert daemons[mine.value] in daemons;
      if Position(clique.content, nodeName).None? {
        assert daemons == clique.content + [daemons[mine.value]];
      }
      assert Write(domain, clique.content, Sync(nodeName, podIp)) == Some(daemons);
      r := api.Update(clique, daemons, Sync(nodeName, podIp));
      if r.Ok? {
        cached := Some(r.value);
      }
    }

    /** Drops every entry with this pod's address, and no other. */
    method RemoveDaemonInfoFromClique() returns (r: Result<()>)
      requires Valid()
      modifies api, this`cached
      ensures Valid()
      ensures api.versions == old(api.versions) ||
              (old(cached).Some? &&
               api.versions == Attempt(WriteIn(domain), old(api.versions), Step(old(cached).value.version, RemoveByIp(podIp))))
      ensures r.Ok? && old(cached).Some? ==>
                && cached.Some? && api.versions == old(api.versions) + [cached.value.content]
                && (forall d :: d in cached.value.content <==> d in old(cached).value.content && d.ipAddress != podIp)
      ensures r.Err? ==> old(cached).Some? && (old(cached).value.version < |old(api.versions)| - 1 || api.faults > old(api.faults))
    {
      if cached.None? {
        return Ok(());
      }
      var clique := cached.value;
      var daemons: seq<DaemonInfo> := [];
      for i := 0 to |clique.content|
        invariant daemons == Kept(clique.content[..i], NotAt(podIp))
      {
        var d := clique.content[i];
        assert clique.content[..i + 1][..i] == clique.content[..i];
        if d.ipAddress != podIp {
          daemons := daemons + [d];
        }
      }
      assert clique.content[..|clique.content|] == clique.content;
      KeptMembers(clique.content, NotAt(podIp));
      var updated :- api.Update(clique, daemons, RemoveByIp(podIp));
      cached := Some(updated);
      return Ok(());
    }

    /** Sets this node's status; without an entry, or without a clique, it fails. */
    method UpdateDaemonStatus(ready: bool) returns (r: Result<()>)
      requires Valid()
      modifies api, this`cached
      ensures Valid()
      ensures var status := if ready then Ready else NotReady;
              api.versions == old(api.versions) ||
              (old(cached).Some? &&
               api.versions == Attempt(WriteIn(domain), old(api.versions), Step(old(cached).value.version, SetStatus(nodeName, status))))
      ensures old(cached).None? || !Lists(old(cached).value.content, nodeName) ==> r == Err(NotFound) && api.versions == old(api.versions)
      ensures r.Ok? ==>
                && old(cached).Some? && cached.Some? && Lists(old(cached).value.content, nodeName)
                && Edited(old(cached).value.content, cached.value.content, nodeName,
                          (d: DaemonInfo) => d.(status := if ready then Ready else NotReady))
                && (api.versions == if cached == old(cached) then old(api.versions) else old(api.versions) + [cached.value.content])
      ensures old(cached).Some? &&
              IsUpToDate(old(cached).value.content, nodeName, (d: DaemonInfo) => d.(status := if ready then Ready else NotReady)) ==>
                r.Ok? && cached == old(cached)
      ensures r.Err? && old(cached).Some? && Lists(old(cached).value.content, nodeName) ==>
                old(cached).value.version < |old(api.versions)| - 1 || api.faults > old(api.faults)
    {
      var status := if ready then Ready else NotReady;
      ghost var edit := (d: DaemonInfo) => d.(status := if ready then Ready else NotReady);
      if cached.None? {
        return Err(NotFound);
      }
      var clique := cached.value;
      PositionIsFirst(clique.content, nodeName, edit);
      var mine := FindNode(clique.content, nodeName);
      if mine.None? {
        return Err(NotFound);
      }
      if clique.content[mine.value].status == status {
        assert clique.content[mine.value := edit(clique.content[mine.value])] == clique.content;
        return Ok(());
      }
      var daemons := clique.content[mine.value := clique.content[mine.value].(status := status)];
      var updated :- api.Update(clique, daemons, SetStatus(nodeName, status));
      cached := Some(updated);
      return Ok(());
    }

    /** Pushes the list exactly when its set of addresses differs from the one pushed last. */
    method MaybePushDaemonsUpdate(daemons: seq<DaemonInfo>)
      modifies this`previousDaemons, this`pushed
      ensures pushed == if SameAddresses(daemons, old(previousDaemons)) then old(pushed) else old(pushed) + [daemons]
      ensures SameAddresses(previousDaemons, daemons) && (pushed != old(pushed) ==> previousDaemons == daemons)
    {
      hide IpSet, SameAddresses;
      SameSetSameAddresses(daemons, previousDaemons);
      SameSetSameAddresses(previousDaemons, daemons);
      SameSetSameAddresses(daemons, daemons);
      if IpSet(daemons) != IpSet(previousDaemons) {
        previousDaemons := daemons;
        pushed := pushed + [daemons];
      }
    }

    method OnAddOrUpdate() returns (r: Result<()>)
      requires Valid()
      modifies api, this
      ensures Valid()
      ensures r.Ok? && old(cached).Some? ==>
                exists daemons :: SameAddresses(previousDaemons, daemons) && daemons in api.versions && ListsAt(daemons, nodeName, podIp)
      ensures pushed == old(pushed) || pushed == old(pushed) + [previousDaemons]
      ensures r.Err? ==> old(cached).Some? && (r.error == OutOfRange || old(cached).value.version < |old(api.versions)| - 1 ||
                                               api.faults > old(api.faults))
    {
      hide SameAddresses, Inserted, Edited, Lists, ListsAt, Attempt, IpSet, Position, Write, Replay;
      if cached.None? {
        return Ok(());
      }
      var clique :- SyncDaemonInfoToClique(cached.value);
      assert clique.content in api.versions;
      MaybePushDaemonsUpdate(clique.content);
      return Ok(());
    }
  }

  // -------------------------------------------------------------------- the controller

  datatype Pod = Pod(nodeName: string, podIp: string, ready: bool)

  function NodesOf(pods: seq<Pod>): set<string> {
    set p <- pods | p.nodeName != "" :: p.nodeName
  }

  /** Deletes the entries of nodes without a daemon pod from the copy at hand, if there are any. */
  method CleanupClique(domain: Domain, api: CliqueObject, clique: Clique, pods: seq<Pod>) returns (r: Result<()>)
    requires api.Valid() && api.write == WriteIn(domain) && api.Holds(clique)
    modifies api
    ensures api.Valid()
    ensures api.versions == old(api.versions) ||
            api.versions == Attempt(WriteIn(domain), old(api.versions), Step(clique.version, Cleanup(NodesOf(pods))))
    ensures (forall d :: d in clique.content ==> d.nodeName in NodesOf(pods)) ==> api.versions == old(api.versions) && r.Ok?
    ensures r.Ok? && (exists d :: d in clique.content && d.nodeName !in NodesOf(pods)) ==>
              api.versions == old(api.versions) + [Kept(clique.content, RunningOn(NodesOf(pods)))]
    ensures forall d :: d in Kept(clique.content, RunningOn(NodesOf(pods))) <==>
              d in clique.content && d.nodeName != "" && exists p :: p in pods && p.nodeName == d.nodeName
    ensures r.Err? ==> clique.version < |old(api.versions)| - 1 || api.faults > old(api.faults)
  {
    var runningNodes: set<string> := {};
    for i := 0 to |pods|
      invariant runningNodes == NodesOf(pods[..i])
    {
      assert pods[..i + 1] == pods[..i] + [pods[i]];
      if pods[i].nodeName != "" {
        runningNodes := runningNodes + {pods[i].nodeName};
      }
    }
    assert pods[..|pods|] == pods;
    var updatedDaemons: seq<DaemonInfo> := [];
    var removed := 0;
    for i := 0 to |clique.content|
      invariant updatedDaemons == Kept(clique.content[..i], RunningOn(runningNodes))
      invariant |updatedDaemons| + removed == i
    {
      var d := clique.content[i];
      assert clique.content[..i + 1][..i] == clique.content[..i];
      if d.nodeName in runningNodes {
        updatedDaemons := updatedDaemons + [d];
      } else {
        removed := removed + 1;
      }
    }
    assert clique.content[..|clique.content|] == clique.content;
    KeptAll(clique.content, RunningOn(runningNodes));
    KeptMembers(clique.content, RunningOn(runningNodes));
    if removed == 0 {
      return Ok(());
    }
    var _ :- api.Update(clique, updatedDaemons, Cleanup(runningNodes));
    return Ok(());
  }
}
