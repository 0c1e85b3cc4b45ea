/** The compute-domain kubelet plugin: the same checkpointed Prepare and Unprepare, for IMEX channels and
    daemons, with channel 0 reserved for one claim at a time. */
module ComputeDomainPlugin {
  import opened Basics
  import opened Claims
  import opened Configs
  import opened GpuProtocol
  import opened DeviceRelations

  const CD_DRIVER_NAME := "compute-domain.nvidia.com"

  datatype CdDevice = Channel(id: nat) | Daemon(id: nat)

  datatype CdKind = ChannelKind | DaemonKind

  function CdKindOf(d: CdDevice): CdKind {
    if d.Channel? then ChannelKind else DaemonKind
  }

  datatype CdConfig = ChannelConfig(domain: string) | DaemonConfig(domain: string) | OtherCdConfig

  predicate FitsCd(config: CdConfig, kind: CdKind) {
    match config
    case ChannelConfig(_) => kind == ChannelKind
    case DaemonConfig(_) => kind == DaemonKind
    case OtherCdConfig => true
  }

  /** Two nullable members in Go, of which at most one is set. */
  datatype PreparedCdDevice = PreparedCdDevice(device: CdDevice, ref: DeviceRef)

  type CdGroups = seq<seq<PreparedCdDevice>>
  type CdConfigs = seq<OpaqueDeviceConfig<CdConfig>>
  type CdDevices = map<string, CdDevice>
  type ResultsByConfig = map<nat, seq<AllocationResult>>

  datatype CdClaim = CdClaim(
    phase: Phase, results: seq<AllocationResult>, configs: seq<DeviceAllocationConfiguration>, devices: CdGroups,
    name: string, namespace_: string)
  {
    function NonAdmin(): set<string> {
      NonAdminDevices(CD_DRIVER_NAME, results)
    }
  }

  type CdClaims = map<Uid, CdClaim>

  datatype CdResourceClaim = CdResourceClaim(
    uid: Uid, name: string, namespace_: string, results: seq<AllocationResult>,
    configs: seq<DeviceAllocationConfiguration>)

  function CdStarted(claim: CdResourceClaim): CdClaim {
    CdClaim(PrepareStarted, claim.results, claim.configs, [], claim.name, claim.namespace_)
  }

  function CdCompleted(claim: CdResourceClaim, devices: CdGroups): CdClaim {
    CdClaim(PrepareCompleted, claim.results, claim.configs, devices, "", "")
  }

  // ------------------------------------------------------------------- the invariants

  predicate HoldsChannel(devices: CdGroups, id: nat) {
    exists g, d :: g in devices && d in g && d.device == Channel(id)
  }

  predicate NobodyHoldsChannel(claims: CdClaims, id: nat) {
    forall u :: u in claims && claims[u].phase == PrepareCompleted ==> !HoldsChannel(claims[u].devices, id)
  }

  /** At most one completed claim holds channel 0, admin access or not. */
  predicate ChannelZeroIsExclusive(claims: CdClaims) {
    forall u, v :: u in claims && v in claims && u != v &&
                   claims[u].phase == PrepareCompleted && claims[v].phase == PrepareCompleted ==>
      !HoldsChannel(claims[u].devices, 0) || !HoldsChannel(claims[v].devices, 0)
  }

  predicate NobodyElseHoldsCd(claims: CdClaims, uid: Uid, results: seq<AllocationResult>) {
    forall u :: u in claims && u != uid && claims[u].phase == PrepareCompleted ==>
      claims[u].NonAdmin() !! NonAdminDevices(CD_DRIVER_NAME, results)
  }

  predicate CompletedAreDisjoint(claims: CdClaims) {
    forall u, v :: u in claims && v in claims && u != v &&
                   claims[u].phase == PrepareCompleted && claims[v].phase == PrepareCompleted ==>
      claims[u].NonAdmin() !! claims[v].NonAdmin()
  }

  predicate CheckpointOk(claims: CdClaims) {
    ChannelZeroIsExclusive(claims) && CompletedAreDisjoint(claims)
  }

  lemma StartedKeepsOk(claims: CdClaims, uid: Uid, entry: CdClaim)
    requires CheckpointOk(claims) && entry.phase != PrepareCompleted
    ensures CheckpointOk(claims[uid := entry])
  {
  }

  lemma RemovalKeepsOk(claims: CdClaims, uid: Uid)
    requires CheckpointOk(claims)
    ensures CheckpointOk(claims - {uid})
  {
  }

  lemma CompletionKeepsOk(claims: CdClaims, uid: Uid, entry: CdClaim)
    requires CheckpointOk(claims) && NobodyElseHoldsCd(claims, uid, entry.results)
    requires HoldsChannel(entry.devices, 0) ==> NobodyHoldsChannel(claims, 0)
    ensures CheckpointOk(claims[uid := entry])
  {
    hide HoldsChannel;
  }

  /** The driver advertises channel 0 alone. If claims name advertised devices only, at most one completed
      claim holds a channel at all. */
  lemma OneChannelClaimAtATime(claims: CdClaims, u: Uid, v: Uid, i: nat, k: nat)
    requires ChannelZeroIsExclusive(claims)
    requires forall w, g, d ::
               (w in claims && claims[w].phase == PrepareCompleted && g in claims[w].devices && d in g && d.device.Channel?) ==>
                 d.device.id == 0
    requires u in claims && claims[u].phase == PrepareCompleted && HoldsChannel(claims[u].devices, i)
    requires v in claims && claims[v].phase == PrepareCompleted && HoldsChannel(claims[v].devices, k)
    ensures u == v
  {
  }

  // ------------------------------------------------------- results and prepared devices

  predicate CdDeviceMatches(allocatable: CdDevices, d: PreparedCdDevice, r: AllocationResult) {
    r.device in allocatable && d.device == allocatable[r.device] && Denotes(d.ref, r)
  }

  /** The prepared devices account for this driver's results, each exactly once, and each is the channel or
      daemon that was announced under the name allocated. */
  ghost predicate CdAccounts(allocatable: CdDevices, results: seq<AllocationResult>, devices: CdGroups) {
    && DenotesEach(CdRefs(devices), OfDriver(CD_DRIVER_NAME, results))
    && (forall group, d :: group in devices && d in group ==>
          exists r :: r in results && r.driver == CD_DRIVER_NAME && CdDeviceMatches(allocatable, d, r))
  }

  predicate CdGroupMatches(allocatable: CdDevices, group: seq<PreparedCdDevice>, results: seq<AllocationResult>) {
    |group| == |results| && forall i :: 0 <= i < |group| ==> CdDeviceMatches(allocatable, group[i], results[i])
  }

  predicate CdGroupsMatch(
    allocatable: CdDevices, devices: CdGroups, m: ResultsByConfig, order: seq<nat>)
  {
    && |devices| == |order|
    && forall i :: 0 <= i < |order| ==> order[i] in m && CdGroupMatches(allocatable, devices[i], m[order[i]])
  }

  function CdGroupRefs(group: seq<PreparedCdDevice>): seq<DeviceRef> {
    if group == [] then [] else CdGroupRefs(group[..|group| - 1]) + [group[|group| - 1].ref]
  }

  function CdRefs(devices: CdGroups): seq<DeviceRef> {
    if devices == [] then [] else CdRefs(devices[..|devices| - 1]) + CdGroupRefs(devices[|devices| - 1])
  }

  lemma {:induction false} CdGroupRefsDenote(
    allocatable: CdDevices, group: seq<PreparedCdDevice>, results: seq<AllocationResult>)
    requires CdGroupMatches(allocatable, group, results)
    ensures |CdGroupRefs(group)| == |results|
    ensures forall i :: 0 <= i < |results| ==> Denotes(CdGroupRefs(group)[i], results[i])
  {
    if group != [] {
      var n := |group| - 1;
      CdGroupRefsDenote(allocatable, group[..n], results[..n]);
      assert CdDeviceMatches(allocatable, group[n], results[n]);
    }
  }

  lemma {:induction false} CdRefsDenote(
    allocatable: CdDevices, devices: CdGroups, m: ResultsByConfig, order: seq<nat>)
    requires CdGroupsMatch(allocatable, devices, m, order)
    ensures |CdRefs(devices)| == |Visited(m, order)|
    ensures forall i :: 0 <= i < |CdRefs(devices)| ==> Denotes(CdRefs(devices)[i], Visited(m, order)[i])
  {
    if devices != [] {
      var n := |devices| - 1;
      CdRefsDenote(allocatable, devices[..n], m, order[..n]);
      CdGroupRefsDenote(allocatable, devices[n], m[order[n]]);
    }
  }

  lemma {:induction false} CdGroupRefsMembers(group: seq<PreparedCdDevice>)
    ensures forall ref :: ref in CdGroupRefs(group) <==> exists d :: d in group && d.ref == ref
  {
    if group != [] {
      assert group == group[..|group| - 1] + [group[|group| - 1]];
      CdGroupRefsMembers(group[..|group| - 1]);
    }
  }

  lemma {:induction false} CdRefsMembers(devices: CdGroups)
    ensures forall ref :: ref in CdRefs(devices) <==> exists group, d :: group in devices && d in group && d.ref == ref
  {
    if devices != [] {
      var init, last := devices[..|devices| - 1], devices[|devices| - 1];
      assert devices == init + [last];
      CdRefsMembers(init);
      CdGroupRefsMembers(last);
    }
  }

  method GetCdDevices(devices: CdGroups) returns (refs: seq<DeviceRef>)
    ensures refs == CdRefs(devices)
    ensures forall ref :: ref in refs <==> exists group, d :: group in devices && d in group && d.ref == ref
  {
    CdRefsMembers(devices);
    refs := [];
    for i := 0 to |devices|
      invariant refs == CdRefs(devices[..i])
    {
      var groupRefs: seq<DeviceRef> := [];
      var group := devices[i];
      for k := 0 to |group|
        invariant groupRefs == CdGroupRefs(group[..k])
      {
        assert group[..k + 1][..k] == group[..k];
        groupRefs := groupRefs + [group[k].ref];
      }
      assert group[..|group|] == group;
      assert devices[..i + 1][..i] == devices[..i];
      refs := refs + groupRefs;
    }
    assert devices[..|devices|] == devices;
  }

  function CdKinds(allocatable: CdDevices): map<string, CdKind> {
    map n <- allocatable :: CdKindOf(allocatable[n])
  }

  function WithCdDefaults(configs: CdConfigs): CdConfigs {
    [OpaqueDeviceConfig([], DaemonConfig("")), OpaqueDeviceConfig([], ChannelConfig(""))] + configs
  }

  /** The defaults in front, then class configurations, then claim configurations. */
  function ConfigsOf(decode: string -> Result<CdConfig>, raw: seq<DeviceAllocationConfiguration>): CdConfigs {
    WithCdDefaults(Decoded(decode, CD_DRIVER_NAME, FromSource(FromClass, raw)) +
                   Decoded(decode, CD_DRIVER_NAME, FromSource(FromClaim, raw)))
  }

  predicate NoneRejected(allocatable: CdDevices, all: CdConfigs, results: seq<AllocationResult>) {
    forall x :: x in results && x.driver == CD_DRIVER_NAME ==> !Rejected(FitsCd, all, CdKinds(allocatable), x)
  }

  /** One of this driver's results is for a channel. */
  predicate WantsChannel(allocatable: CdDevices, results: seq<AllocationResult>) {
    exists x :: x in results && x.driver == CD_DRIVER_NAME && x.device in allocatable && allocatable[x.device].Channel?
  }

  lemma CdScanIsTotal(
    allocatable: CdDevices, configs: CdConfigs, results: seq<AllocationResult>)
    requires forall r :: r in results && r.driver == CD_DRIVER_NAME ==> r.device in allocatable
    ensures Total(FitsCd, WithCdDefaults(configs), CdKinds(allocatable), CD_DRIVER_NAME, results)
  {
    var all, kinds := WithCdDefaults(configs), CdKinds(allocatable);
    forall r | r in results && r.driver == CD_DRIVER_NAME ensures Of(FitsCd, all, kinds, r).Some? {
      ScanIsTotal(FitsCd, all, kinds, r);
      assert all[0] in all && all[1] in all;
    }
  }

  /** A result for a channel is only ever governed by a channel configuration, or by one that no rule
      knows how to apply. */
  lemma ChannelIsGovernedByChannelConfig(
    allocatable: CdDevices, all: CdConfigs, results: seq<AllocationResult>,
    m: ResultsByConfig, j: nat, r: AllocationResult)
    requires IsResultsMap(FitsCd, all, CdKinds(allocatable), CD_DRIVER_NAME, results, m)
    requires NoneRejected(allocatable, all, results)
    requires j in m && r in m[j] && r.device in allocatable && allocatable[r.device].Channel?
    ensures j < |all| && (all[j].config.ChannelConfig? || all[j].config.OtherCdConfig?)
  {
    GroupMembers(FitsCd, all, CdKinds(allocatable), CD_DRIVER_NAME, results, j);
    assert Matches(FitsCd, all[j], r.request, ChannelKind);
    assert !Rejected(FitsCd, all, CdKinds(allocatable), r);
  }

  /** A channel configuration applies to exactly one result, and only while nobody holds channel 0; a daemon
      configuration to a single device. */
  predicate Applicable(claims: CdClaims, config: CdConfig, results: seq<AllocationResult>) {
    match config
    case ChannelConfig(_) => |results| == 1 && NobodyHoldsChannel(claims, 0)
    case DaemonConfig(_) => |DeviceNames(results)| == 1
    case OtherCdConfig => false
  }

  predicate AllApplicable(claims: CdClaims, all: CdConfigs, m: ResultsByConfig) {
    forall j :: j in m && j < |all| ==> Applicable(claims, all[j].config, m[j])
  }

  /** The configurations can be read, and every result of this driver is for a known device and not mistyped. */
  predicate Resolvable(
    decode: string -> Result<CdConfig>, allocatable: CdDevices, results: seq<AllocationResult>,
    raw: seq<DeviceAllocationConfiguration>)
  {
    && (forall c :: c in raw ==> Acceptable(decode, CD_DRIVER_NAME, c))
    && NoneRejected(allocatable, ConfigsOf(decode, raw), results)
  }

  /** The results that this configuration governs. */
  function Governed(decode: string -> Result<CdConfig>, allocatable: CdDevices, claim: CdResourceClaim, j: nat)
    : seq<AllocationResult>
  {
    Group(FitsCd, ConfigsOf(decode, claim.configs), CdKinds(allocatable), CD_DRIVER_NAME, claim.results, j)
  }

  /** Each configuration that governs something applies to what it governs. */
  predicate Preparable(decode: string -> Result<CdConfig>, allocatable: CdDevices, claims: CdClaims, claim: CdResourceClaim) {
    var all := ConfigsOf(decode, claim.configs);
    && Resolvable(decode, allocatable, claim.results, claim.configs)
    && forall j :: 0 <= j < |all| && Governed(decode, allocatable, claim, j) != [] ==>
         Applicable(claims, all[j].config, Governed(decode, allocatable, claim, j))
  }

  /** If a configuration of the class or the claim matches, the last one that does governs, never a default. */
  lemma OwnConfigBeatsDefaults(
    decode: string -> Result<CdConfig>, allocatable: CdDevices, claim: CdResourceClaim, r: AllocationResult, own: CdConfigs, k: nat)
    requires own == Decoded(decode, CD_DRIVER_NAME, FromSource(FromClass, claim.configs)) +
                    Decoded(decode, CD_DRIVER_NAME, FromSource(FromClaim, claim.configs))
    requires r.device in allocatable
    requires Governs(FitsCd, own, k, r.request, if allocatable[r.device].Channel? then ChannelKind else DaemonKind)
    ensures var all := ConfigsOf(decode, claim.configs);
            var g := Of(FitsCd, all, CdKinds(allocatable), r);
            g.Some? && all[g.value] == own[k]
  {
    var all, kind := ConfigsOf(decode, claim.configs), CdKinds(allocatable)[r.device];
    GoverningIsUnique(FitsCd, own, k, r.request, kind);
    GoverningConcat(FitsCd, all[..2], own, |own|, r.request, kind);
    assert all == all[..2] + own;
  }

  // ------------------------------------------------------------------------ the plugin

  class DeviceState {
    const allocatable: CdDevices
    const strict: string -> Result<CdConfig>
    const lenient: string -> Result<CdConfig>
    var claims: CdClaims
    var cdi: set<Uid>

    /** Every content the checkpoint ever had: what a crash at any point leaves behind is among them. */
    ghost var past: seq<CdClaims>

    /** How often something outside has failed: the file system, the API server, a side effect of a
        configuration. An error that is not due to that has a reason that the caller could have checked. */
    ghost var faults: nat

    ghost predicate Valid()
      reads this`claims, this`past
    {
      past != [] && past[|past| - 1] == claims && forall i :: 0 <= i < |past| ==> CheckpointOk(past[i])
    }

    /** A plugin that starts over what is left from before. */
    constructor (allocatable: CdDevices, strict: string -> Result<CdConfig>, lenient: string -> Result<CdConfig>,
                 claims: CdClaims, cdi: set<Uid>)
      requires CheckpointOk(claims)
      ensures Valid() && this.claims == claims && this.cdi == cdi && this.allocatable == allocatable
    {
      this.allocatable, this.strict, this.lenient, this.claims, this.cdi := allocatable, strict, lenient, claims, cdi;
      this.past, this.faults := [claims], 0;
    }

    method UpdateCheckpoint(updated: CdClaims) returns (r: Result<()>)
      requires Valid() && CheckpointOk(updated)
      modifies this`claims, this`past, this`faults
      ensures Valid() && old(past) <= past && faults == old(faults) + if r.Err? then 1 else 0
      ensures claims == if r.Ok? then updated else old(claims)
      ensures past == if r.Ok? then old(past) + [updated] else old(past)
    {
      if * {
        faults := faults + 1;
        return Err(StoreFailure);
      }
      claims := updated;
      past := past + [updated];
      return Ok(());
    }

    /** Reads the checkpoint afresh; succeeds only if no completed claim holds the channel. */
    method AssertImexChannelNotAllocated(id: nat) returns (r: Result<()>)
      modifies this`faults
      ensures r.Ok? ==> NobodyHoldsChannel(claims, id)
      ensures faults >= old(faults) && (r.Err? ==> faults > old(faults) || !NobodyHoldsChannel(claims, id))
    {
      if * {
        faults := faults + 1;
        return Err(StoreFailure);
      }
      var uids := claims.Keys;
      while uids != {}
        invariant uids <= claims.Keys
        invariant forall u :: u in claims && u !in uids && claims[u].phase == PrepareCompleted ==> !HoldsChannel(claims[u].devices, id)
      {
        var uid :| uid in uids;
        uids := uids - {uid};
        if claims[uid].phase != PrepareCompleted {
          continue;
        }
        var devices := claims[uid].devices;
        for i := 0 to |devices|
          invariant forall g: seq<PreparedCdDevice>, d: PreparedCdDevice :: g in devices[..i] && d in g ==> d.device != Channel(id)
        {
          var group := devices[i];
          for k := 0 to |group|
            invariant forall d: PreparedCdDevice :: d in group[..k] ==> d.device != Channel(id)
          {
            if group[k].device == Channel(id) {
              assert group in devices && group[k] in group;
              assert HoldsChannel(claims[uid].devices, id);
              return Err(InUse);
            }
          }
        }
      }
      return Ok(());
    }

    method ValidateNoOverlappingPreparedDevices(uid: Uid, results: seq<AllocationResult>) returns (r: Result<()>)
      ensures r.Ok? <==> NobodyElseHoldsCd(claims, uid, results)
      ensures r.Ok? <==> forall u, x, y :: (u in claims && u != uid && claims[u].phase == PrepareCompleted &&
                                            x in claims[u].results && y in results) ==> !Clash(CD_DRIVER_NAME, x, y)
    {
      forall u | u in claims
        ensures claims[u].NonAdmin() !! NonAdminDevices(CD_DRIVER_NAME, results) <==>
                forall x, y :: x in claims[u].results && y in results ==> !Clash(CD_DRIVER_NAME, x, y)
      {
        DisjointMeansNoClash(CD_DRIVER_NAME, claims[u].results, results);
      }
      hide Clash, NonAdminDevices;
      var requested := CollectNonAdminDevices(CD_DRIVER_NAME, results);
      if requested == {} {
        return Ok(());
      }
      var uids := claims.Keys;
      while uids != {}
        invariant uids <= claims.Keys
        invariant forall u :: u in claims && u !in uids && u != uid && claims[u].phase == PrepareCompleted ==>
                    claims[u].NonAdmin() !! requested
      {
        var other :| other in uids;
        uids := uids - {other};
        if other == uid || claims[other].phase != PrepareCompleted {
          continue;
        }
        var prepared := CollectNonAdminDevices(CD_DRIVER_NAME, claims[other].results);
        var overlap := prepared * requested;
        if overlap != {} {
          assert other in claims && claims[other].NonAdmin() * requested != {};
          return Err(InUse);
        }
        assert forall x :: x in prepared && x in requested ==> x in overlap;
        assert claims[other].NonAdmin() == prepared;
      }
      return Ok(());
    }

    /** The configurations that count for a claim, and the results each of them governs. It fails exactly on
        a configuration that cannot be accepted, or on a result that the scan rejects. */
    method GetConfigResults(decode: string -> Result<CdConfig>, results: seq<AllocationResult>, raw: seq<DeviceAllocationConfiguration>)
      returns (r: Result<(CdConfigs, ResultsByConfig)>)
      ensures r.Ok? <==> Resolvable(decode, allocatable, results, raw)
      ensures r.Ok? ==>
                && r.value.0 == ConfigsOf(decode, raw)
                && IsResultsMap(FitsCd, r.value.0, CdKinds(allocatable), CD_DRIVER_NAME, results, r.value.1)
    {
      hide IsResultsMap, Acceptable, Rejected;
      var decoded :- GetOpaqueDeviceConfigs(decode, CD_DRIVER_NAME, raw);
      var all := [OpaqueDeviceConfig([], ChannelConfig(""))] + decoded;
      all := [OpaqueDeviceConfig([], DaemonConfig(""))] + all;
      assert all == ConfigsOf(decode, raw);
      var m :- GetConfigResultsMap(FitsCd, all, CdKinds(allocatable), CD_DRIVER_NAME, results);
      return Ok((all, m));
    }

    method ApplyConfig(config: CdConfig, results: seq<AllocationResult>) returns (r: Result<()>)
      modifies this`faults
      ensures r.Ok? ==> Applicable(claims, config, results)
      ensures r.Ok? && config.ChannelConfig? ==> |results| == 1 && NobodyHoldsChannel(claims, 0)
      ensures r.Ok? && config.DaemonConfig? ==> |DeviceNames(results)| == 1
      ensures r.Ok? ==> !config.OtherCdConfig?
      ensures faults >= old(faults) && (r.Err? ==> faults > old(faults) || !Applicable(claims, config, results))
    {
      hide NobodyHoldsChannel, DeviceNames;
      match config
      case ChannelConfig(_) =>
        if |results| != 1 {
          return Err(BadConfig);
        }
        var _ :- AssertImexChannelNotAllocated(0);
        if * {
          faults := faults + 1;
          return Err(BadState);
        }
        return Ok(());
      case DaemonConfig(_) =>
        if |DeviceNames(results)| != 1 {
          return Err(BadConfig);
        }
        if * {
          faults := faults + 1;
          return Err(BadState);
        }
        return Ok(());
      case OtherCdConfig =>
        return Err(BadConfig);
    }

    method PrepareGroup(results: seq<AllocationResult>) returns (group: seq<PreparedCdDevice>)
      requires forall x :: x in results ==> x.device in allocatable
      ensures CdGroupMatches(allocatable, group, results)
    {
      group := [];
      for i := 0 to |results|
        invariant CdGroupMatches(allocatable, group, results[..i])
      {
        assert results[i] in results;
        group := group + [PreparedCdDevice(allocatable[results[i].device], Ref(results[i]))];
      }
      assert results[..|results|] == results;
    }

    method ApplyConfigs(all: CdConfigs, m: ResultsByConfig) returns (r: Result<()>)
      modifies this`faults
      ensures r.Ok? ==> AllApplicable(claims, all, m)
      ensures faults >= old(faults) && (r.Err? ==> faults > old(faults) || !AllApplicable(claims, all, m))
    {
      hide Applicable;
      var keys := m.Keys;
      while keys != {}
        invariant keys <= m.Keys && faults >= old(faults)
        invariant forall j :: j in m && j !in keys && j < |all| ==> Applicable(claims, all[j].config, m[j])
      {
        var j :| j in keys;
        keys := keys - {j};
        if j < |all| {
          var _ :- ApplyConfig(all[j].config, m[j]);
        }
      }
      return Ok(());
    }

    method WalkGroups(m: ResultsByConfig) returns (devices: CdGroups, ghost order: seq<nat>)
      requires forall j, x :: j in m && x in m[j] ==> x.device in allocatable
      ensures IsOrderOf(order, m.Keys) && CdGroupsMatch(allocatable, devices, m, order)
    {
      hide CdGroupMatches;
      devices, order := [], [];
      var keys := m.Keys;
      while keys != {}
        invariant keys <= m.Keys && IsOrderOf(order, m.Keys - keys)
        invariant CdGroupsMatch(allocatable, devices, m, order)
      {
        var j :| j in keys;
        var group := PrepareGroup(m[j]);
        devices := devices + [group];
        order := order + [j];
        keys := keys - {j};
      }
      assert m.Keys - keys == m.Keys;
    }

    /** Nothing is written here. A claim with a channel gets through only while nobody holds channel 0. */
    method PrepareDevices(claim: CdResourceClaim) returns (r: Result<CdGroups>)
      modifies this`faults
      ensures r.Ok? ==> Preparable(strict, allocatable, claims, claim)
      ensures faults >= old(faults) && (r.Err? ==> faults > old(faults) || !Preparable(strict, allocatable, claims, claim))
      ensures r.Ok? ==> CdAccounts(allocatable, claim.results, r.value)
      ensures r.Ok? && WantsChannel(allocatable, claim.results) ==> NobodyHoldsChannel(claims, 0)
      ensures r.Ok? && HoldsChannel(r.value, 0) ==> NobodyHoldsChannel(claims, 0)
    {
      hide IsResultsMap, NobodyHoldsChannel, AllApplicable, NoneRejected, ConfigsOf, WantsChannel, HoldsChannel, CdAccounts,
        Acceptable, CdGroupsMatch, IsOrderOf, Resolvable, Preparable;
      assert Preparable(strict, allocatable, claims, claim) ==> Resolvable(strict, allocatable, claim.results, claim.configs) by {
        PreparableIsResolvable(claim);
      }
      var found :- GetConfigResults(strict, claim.results, claim.configs);
      var (all, m) := found;
      PreparableIff(claim, m);
      var _ :- ApplyConfigs(all, m);
      ResolvableRejectsNone(claim);
      ChannelsAreChecked(all, claim, m);
      forall j | j in m ensures forall x: AllocationResult :: x in m[j] ==> x.device in allocatable {
        KeyIsAllocatable(all, claim.results, m, j);
      }
      var devices: CdGroups;
      ghost var order: seq<nat>;
      devices, order := WalkGroups(m);
      WalkAccountsForAll(all, claim, m, order, devices);
      if HoldsChannel(devices, 0) {
        HolderHasChannelResult(all, claim.results, m, order, devices);
      }
      return Ok(devices);
    }

    lemma PreparableIsResolvable(claim: CdResourceClaim)
      ensures Preparable(strict, allocatable, claims, claim) ==> Resolvable(strict, allocatable, claim.results, claim.configs)
    {
    }

    lemma ResolvableRejectsNone(claim: CdResourceClaim)
      requires Resolvable(strict, allocatable, claim.results, claim.configs)
      ensures NoneRejected(allocatable, ConfigsOf(strict, claim.configs), claim.results)
    {
    }

    lemma PreparableIff(claim: CdResourceClaim, m: ResultsByConfig)
      requires Resolvable(strict, allocatable, claim.results, claim.configs)
      requires IsResultsMap(FitsCd, ConfigsOf(strict, claim.configs), CdKinds(allocatable), CD_DRIVER_NAME, claim.results, m)
      ensures Preparable(strict, allocatable, claims, claim) <==> AllApplicable(claims, ConfigsOf(strict, claim.configs), m)
    {
      hide Resolvable, Applicable, ConfigsOf;
    }

    /** After all configurations of the map have been applied: a channel among the results means that
        channel 0 was found free. */
    lemma ChannelsAreChecked(all: CdConfigs, claim: CdResourceClaim, m: ResultsByConfig)
      requires all == ConfigsOf(strict, claim.configs) && AllApplicable(claims, all, m)
      requires IsResultsMap(FitsCd, all, CdKinds(allocatable), CD_DRIVER_NAME, claim.results, m)
      requires NoneRejected(allocatable, all, claim.results)
      ensures WantsChannel(allocatable, claim.results) ==> NobodyHoldsChannel(claims, 0)
    {
      var results := claim.results;
      ConfigsAreTotal(claim);
      forall x | x in results && x.driver == CD_DRIVER_NAME && x.device in allocatable && allocatable[x.device].Channel?
        ensures NobodyHoldsChannel(claims, 0)
      {
        var j := Of(FitsCd, all, CdKinds(allocatable), x).value;
        GroupMembers(FitsCd, all, CdKinds(allocatable), CD_DRIVER_NAME, results, j);
        ChannelIsGovernedByChannelConfig(allocatable, all, results, m, j, x);
      }
    }

    lemma KeyIsAllocatable(all: CdConfigs, results: seq<AllocationResult>, m: ResultsByConfig, j: nat)
      requires IsResultsMap(FitsCd, all, CdKinds(allocatable), CD_DRIVER_NAME, results, m) && j in m
      requires NoneRejected(allocatable, all, results)
      ensures forall x :: x in m[j] ==> x in results && x.driver == CD_DRIVER_NAME && x.device in allocatable
    {
      GroupMembers(FitsCd, all, CdKinds(allocatable), CD_DRIVER_NAME, results, j);
    }

    lemma ConfigsAreTotal(claim: CdResourceClaim)
      requires NoneRejected(allocatable, ConfigsOf(strict, claim.configs), claim.results)
      ensures Total(FitsCd, ConfigsOf(strict, claim.configs), CdKinds(allocatable), CD_DRIVER_NAME, claim.results)
    {
      var decoded := Decoded(strict, CD_DRIVER_NAME, FromSource(FromClass, claim.configs)) +
                     Decoded(strict, CD_DRIVER_NAME, FromSource(FromClaim, claim.configs));
      CdScanIsTotal(allocatable, decoded, claim.results);
    }

    lemma WalkAccountsForAll(all: CdConfigs, claim: CdResourceClaim, m: ResultsByConfig, order: seq<nat>, devices: CdGroups)
      requires all == ConfigsOf(strict, claim.configs)
      requires IsResultsMap(FitsCd, all, CdKinds(allocatable), CD_DRIVER_NAME, claim.results, m)
      requires NoneRejected(allocatable, all, claim.results)
      requires IsOrderOf(order, m.Keys) && CdGroupsMatch(allocatable, devices, m, order)
      ensures CdAccounts(allocatable, claim.results, devices)
    {
      var results := claim.results;
      ConfigsAreTotal(claim);
      AnyWalkPartitions(FitsCd, all, CdKinds(allocatable), CD_DRIVER_NAME, results, m, order);
      CdRefsDenote(allocatable, devices, m, order);
      hide IsResultsMap, Visited;
      forall group, d | group in devices && d in group
        ensures exists r :: r in results && r.driver == CD_DRIVER_NAME && CdDeviceMatches(allocatable, d, r)
      {
        var i :| 0 <= i < |devices| && devices[i] == group;
        var k :| 0 <= k < |group| && group[k] == d;
        assert CdGroupMatches(allocatable, devices[i], m[order[i]]);
        KeyIsAllocatable(all, results, m, order[i]);
        assert m[order[i]][k] in m[order[i]];
      }
    }

    lemma HolderHasChannelResult(all: CdConfigs, results: seq<AllocationResult>, m: ResultsByConfig,
                                 order: seq<nat>, devices: CdGroups)
      requires IsResultsMap(FitsCd, all, CdKinds(allocatable), CD_DRIVER_NAME, results, m)
      requires NoneRejected(allocatable, all, results)
      requires CdGroupsMatch(allocatable, devices, m, order) && HoldsChannel(devices, 0)
      ensures WantsChannel(allocatable, results)
    {
      var g, d :| g in devices && d in g && d.device == Channel(0);
      var i :| 0 <= i < |devices| && devices[i] == g;
      var k :| 0 <= k < |g| && g[k] == d;
      var j := order[i];
      assert CdGroupMatches(allocatable, g, m[j]);
      assert CdDeviceMatches(allocatable, g[k], m[j][k]);
      KeyIsAllocatable(all, results, m, j);
      assert m[j][k] in m[j];
    }

    /** An error that nothing outside has caused is due to the claim: somebody else has one of its devices
        for himself, or its configurations cannot be read or applied to what they govern. */
    method Prepare(claim: CdResourceClaim) returns (r: Result<seq<DeviceRef>>)
      requires Valid()
      modifies this
      ensures Valid() && old(past) <= past
      ensures claims - {claim.uid} == old(claims) - {claim.uid} && cdi - {claim.uid} == old(cdi) - {claim.uid}
      ensures claim.uid in old(claims) && old(claims)[claim.uid].phase == PrepareCompleted ==>
                && claims == old(claims) && cdi == old(cdi)
                && (r.Ok? ==> r.value == CdRefs(claims[claim.uid].devices)) && (r.Err? ==> faults > old(faults))
      ensures !(claim.uid in old(claims) && old(claims)[claim.uid].phase == PrepareCompleted) ==>
                && (!NobodyElseHoldsCd(old(claims), claim.uid, claim.results) ==> r.Err? && claims == old(claims) && cdi == old(cdi))
                && (!Preparable(strict, allocatable, old(claims), claim) ==> r.Err?)
                && (r.Err? ==>
                      || faults > old(faults)
                      || !NobodyElseHoldsCd(old(claims), claim.uid, claim.results)
                      || !Preparable(strict, allocatable, old(claims), claim))
                // no channel while channel 0 is held, whatever the configurations are
                && (!NobodyHoldsChannel(old(claims), 0) && WantsChannel(allocatable, claim.results) ==> r.Err?)
                && (r.Ok? ==>
                      && claim.uid in claims && claim.uid in cdi
                      // written ahead as started, then as completed
                      && past == old(past) +
                                 [old(claims)[claim.uid :=
                                    CdClaim(PrepareStarted, claim.results, claim.configs, [], claim.name, claim.namespace_)], claims]
                      && claims == old(claims)[claim.uid :=
                           CdClaim(PrepareCompleted, claim.results, claim.configs, claims[claim.uid].devices, "", "")]
                      && r.value == CdRefs(claims[claim.uid].devices)
                      && CdAccounts(allocatable, claim.results, claims[claim.uid].devices)
                      && DenotesEach(r.value, OfDriver(CD_DRIVER_NAME, claim.results)))
      ensures r.Err? ==> || claims == old(claims)
                         || claims == old(claims)[claim.uid :=
                              CdClaim(PrepareStarted, claim.results, claim.configs, [], claim.name, claim.namespace_)]
    {
      hide CheckpointOk, NobodyElseHoldsCd, NobodyHoldsChannel, HoldsChannel, CdRefs, CdAccounts, DenotesEach, Preparable;
      var uid := claim.uid;
      if * {
        faults := faults + 1;
        return Err(StoreFailure);
      }
      if uid in claims && claims[uid].phase == PrepareCompleted {
        var refs := GetCdDevices(claims[uid].devices);
        return Ok(refs);
      }
      var _ :- ValidateNoOverlappingPreparedDevices(uid, claim.results);
      assert CheckpointOk(claims) by { assert claims == past[|past| - 1]; }
      StartedKeepsOk(claims, uid, CdStarted(claim));
      var _ :- UpdateCheckpoint(claims[uid := CdStarted(claim)]);
      StartedHoldsNothing(old(claims), claim);
      r := PrepareFromStarted(claim, old(claims));
    }

    method PrepareFromStarted(claim: CdResourceClaim, ghost before: CdClaims) returns (r: Result<seq<DeviceRef>>)
      requires Valid() && claims == before[claim.uid := CdStarted(claim)]
      requires NobodyElseHoldsCd(claims, claim.uid, claim.results)
      modifies this
      ensures Valid() && old(past) <= past
      ensures claims - {claim.uid} == old(claims) - {claim.uid} && cdi - {claim.uid} == old(cdi) - {claim.uid}
      ensures faults >= old(faults)
      ensures r.Err? ==> claims == old(claims) && (faults > old(faults) || !Preparable(strict, allocatable, old(claims), claim))
      ensures r.Ok? ==>
                && Preparable(strict, allocatable, old(claims), claim)
                && (WantsChannel(allocatable, claim.results) ==> NobodyHoldsChannel(old(claims), 0))
                && claim.uid in claims && claim.uid in cdi && past == old(past) + [claims]
                && claims == before[claim.uid :=
                     CdClaim(PrepareCompleted, claim.results, claim.configs, claims[claim.uid].devices, "", "")]
                && r.value == CdRefs(claims[claim.uid].devices)
                && CdAccounts(allocatable, claim.results, claims[claim.uid].devices)
                && DenotesEach(r.value, OfDriver(CD_DRIVER_NAME, claim.results))
    {
      hide CheckpointOk, NobodyElseHoldsCd, NobodyHoldsChannel, HoldsChannel, CdRefs, DenotesEach, Preparable, WantsChannel;
      var uid := claim.uid;
      var devices :- PrepareDevices(claim);
      if * {
        faults := faults + 1;
        return Err(FileFailure);
      }
      cdi := cdi + {uid};
      assert CheckpointOk(claims) by { assert claims == past[|past| - 1]; }
      CompletionKeepsOk(claims, uid, CdCompleted(claim, devices));
      assert claims[uid := CdCompleted(claim, devices)] == before[uid := CdCompleted(claim, devices)];
      var _ :- UpdateCheckpoint(claims[uid := CdCompleted(claim, devices)]);
      var refs := GetCdDevices(devices);
      return Ok(refs);
    }

    lemma StartedHoldsNothing(before: CdClaims, claim: CdResourceClaim)
      requires NobodyElseHoldsCd(before, claim.uid, claim.results)
      requires !(claim.uid in before && before[claim.uid].phase == PrepareCompleted)
      ensures NobodyElseHoldsCd(before[claim.uid := CdStarted(claim)], claim.uid, claim.results)
      ensures NobodyHoldsChannel(before[claim.uid := CdStarted(claim)], 0) <==> NobodyHoldsChannel(before, 0)
      ensures Preparable(strict, allocatable, before[claim.uid := CdStarted(claim)], claim) <==>
              Preparable(strict, allocatable, before, claim)
    {
      hide HoldsChannel, Resolvable, Governed, ConfigsOf;
      var after := before[claim.uid := CdStarted(claim)];
      if NobodyHoldsChannel(after, 0) {
        forall u | u in before && before[u].phase == PrepareCompleted ensures !HoldsChannel(before[u].devices, 0) {
          assert u in after && after[u] == before[u];
        }
      }
    }

    /** Works from the results and configurations on record, decoded leniently. */
    method UnprepareDevices(claim: CdClaim) returns (r: Result<()>)
      modifies this`faults
      ensures r.Ok? ==> Resolvable(lenient, allocatable, claim.results, claim.configs)
      ensures faults >= old(faults)
      ensures r.Err? ==> faults > old(faults) || !Resolvable(lenient, allocatable, claim.results, claim.configs)
    {
      hide Resolvable;
      var found :- GetConfigResults(lenient, claim.results, claim.configs);
      var (all, m) := found;
      var keys := m.Keys;
      while keys != {}
        invariant faults >= old(faults)
      {
        var j :| j in keys;
        keys := keys - {j};
        if * {
          faults := faults + 1;
          return Err(BadState);
        }
      }
      return Ok(());
    }

    /** A failed Unprepare keeps the entry; a successful one leaves neither entry nor CDI file. An error that
        nothing outside has caused is due to the entry. */
    method Unprepare(uid: Uid) returns (r: Result<()>)
      requires Valid()
      modifies this
      ensures Valid() && old(past) <= past
      ensures cdi - {uid} == old(cdi) - {uid}
      ensures uid !in old(claims) ==> claims == old(claims) && cdi == old(cdi) && (r.Err? ==> faults > old(faults))
      ensures uid in old(claims) && old(claims)[uid].phase == Unset ==> r.Err? && cdi == old(cdi)
      ensures r.Ok? && uid in old(claims) ==>
                && claims == old(claims) - {uid} && uid !in cdi && past == old(past) + [claims]
                && Resolvable(lenient, allocatable, old(claims)[uid].results, old(claims)[uid].configs)
      ensures r.Err? ==> claims == old(claims)
      ensures r.Err? && uid in old(claims) ==>
                || faults > old(faults) || old(claims)[uid].phase == Unset
                || !Resolvable(lenient, allocatable, old(claims)[uid].results, old(claims)[uid].configs)
    {
      hide CheckpointOk, Resolvable;
      if * {
        faults := faults + 1;
        return Err(StoreFailure);
      }
      if uid !in claims {
        return Ok(());
      }
      match claims[uid].phase {
        case PrepareStarted =>
          var _ :- UnprepareDevices(claims[uid]);
        case PrepareCompleted =>
          var _ :- UnprepareDevices(claims[uid]);
        case Unset =>
          return Err(BadState);
      }
      if * {
        faults := faults + 1;
        return Err(FileFailure);
      }
      cdi := cdi - {uid};
      assert CheckpointOk(claims) by { assert claims == past[|past| - 1]; }
      RemovalKeepsOk(claims, uid);
      var _ :- UpdateCheckpoint(claims - {uid});
      return Ok(());
    }
  }
}
