/** What the operations of `DeviceState` rely on and promise: relations between the state before and after
    a stretch of steps, and between a claim's results and its prepared devices. */
module DeviceRelations {
  import opened Basics
  import opened Claims
  import opened Configs
  import opened MigNames
  import opened GpuProtocol
  import opened GpuInvariants
  import opened GpuOrphans

  // --------------------------------------------------------------- along a run

  /** `r` continues `prefix`, stated so that stretches of steps compose without an induction. */
  ghost predicate Continues(prefix: Run, r: Run) {
    forall p :: Extends(p, prefix) ==> Extends(p, r)
  }

  lemma ContinuesIsExtends(prefix: Run, r: Run)
    ensures Continues(prefix, r) <==> Extends(prefix, r)
  {
    if Continues(prefix, r) {
      assert Extends(prefix, prefix);
    }
    if Extends(prefix, r) {
      forall p | Extends(p, prefix) ensures Extends(p, r) {
        ExtendsIsTransitive(p, prefix, r);
      }
    }
  }

  /** A plugin that dies anywhere along a run leaves the durable state of a run behind. */
  lemma {:induction false} EveryPrefixIsRun(node: Node, prefix: Run, r: Run)
    requires IsRun(node, r) && Extends(prefix, r)
    ensures IsRun(node, prefix) && First(prefix) == First(r)
    ensures OrderlyRun(node, r) ==> OrderlyRun(node, prefix)
    ensures NoAdminRun(r) ==> NoAdminRun(prefix)
  {
    if prefix != r {
      EveryPrefixIsRun(node, prefix, r.before);
    }
  }

  /** NVML: GPU instances sit on known GPUs in MIG mode and do not share slices. */
  ghost predicate Hardware(node: Node, s: State) {
    && PlacementsApart(s)
    && forall key :: key in s.gis ==> key.parent in node.minors && key.parent in s.migMode
  }

  lemma HardwareStep(node: Node, s: State, l: Label)
    requires ValidNode(node) && Hardware(node, s) && Enabled(node, s, l)
    ensures Hardware(node, Apply(s, l))
  {
    PlacementsStayApart(node, s, l);
    var t := Apply(s, l);
    forall key | key in t.gis ensures key.parent in node.minors && key.parent in t.migMode {
      if !(l.CreateGi? && l.key == key) {
        OnlyCreationMoves(s, l, key);
      }
    }
  }

  lemma InstancesAreInMigMode(node: Node, s: State)
    requires Hardware(node, s)
    ensures forall key :: key in s.gis ==> key.parent in node.minors && key.parent in s.migMode
  {
  }

  // ------------------------------------------------------- before and after

  /** Only devices were created. */
  predicate Grows(s: State, t: State) {
    && t.claims == s.claims && t.cdi == s.cdi && t.begun == s.begun
    && forall key :: key in s.gis ==>
         key in t.gis && t.gis[key] == s.gis[key] && (key in s.made ==> key in t.made && t.made[key] == s.made[key])
  }

  /** Only devices were torn down, some perhaps no further than their compute instance. */
  predicate OnlyRemoves(s: State, t: State) {
    && t.claims == s.claims && t.cdi == s.cdi && t.begun == s.begun && t.made == s.made
    && forall key :: key in t.gis ==> key in s.gis && (t.gis[key] == s.gis[key] || t.gis[key] == s.gis[key].(ci := None))
  }

  /** Only devices were torn down, and none that a completed claim lists. */
  ghost predicate Sweeps(node: Node, s: State, t: State) {
    && OnlyRemoves(s, t)
    && forall key :: key in s.gis && s.ListedByCompleted(node.GiName(key, s.gis[key])) ==>
         key in t.gis && t.gis[key] == s.gis[key]
  }

  lemma SweepsInTurn(node: Node, s: State, t: State, u: State)
    requires Sweeps(node, s, t) && Sweeps(node, t, u)
    ensures Sweeps(node, s, u)
  {
  }

  lemma SweepsNothing(node: Node, s: State, t: State)
    requires t == s.(migMode := t.migMode)
    ensures Sweeps(node, s, t)
  {
  }

  lemma SweptRecordStaysOk(node: Node, s: State, t: State, uid: Uid, rec: PreparedMigDevice)
    requires ValidNode(node) && LiveInv(node, s) && Sweeps(node, s, t)
    requires uid in s.claims && s.Completed(uid) && uid !in s.begun && rec in s.claims[uid].Records()
    ensures RecordOk(node, t, uid, rec)
  {
    assert RecordOk(node, s, uid, rec);
    RecordedNameIsListed(node, s, uid, rec);
  }

  lemma SweptStaysLive(node: Node, s: State, t: State)
    requires ValidNode(node) && Recoverable(node, s) && Sweeps(node, s, t)
    ensures LiveInv(node, t)
  {
    hide RecordOk, Published, AllRecorded, NewMigSpecTupleFromCanonicalName, ValidNode;
    assert t.claims == s.claims && t.begun == s.begun;
    forall uid, rec | uid in t.claims && t.Completed(uid) && rec in t.claims[uid].Records()
      ensures RecordOk(node, t, uid, rec)
    {
      assert s.Completed(uid);
      SweptRecordStaysOk(node, s, t, uid, rec);
    }
  }

  lemma SweptStaysDisjoint(s: State, t: State)
    requires DisjointInv(s) && t.claims == s.claims
    ensures DisjointInv(t)
  {
  }

  lemma SweptStaysRecoverable(node: Node, s: State, t: State)
    requires ValidNode(node) && Recoverable(node, s) && PlacementsApart(t) && Sweeps(node, s, t)
    ensures Recoverable(node, t)
  {
    hide LiveInv, DisjointInv, AllRecorded, NewMigSpecTupleFromCanonicalName, ValidNode, PlacementsApart;
    SweptStaysLive(node, s, t);
    SweptStaysDisjoint(s, t);
    forall key | key in t.gis ensures SitsWhereNamed(node, t, key) {
      assert SitsWhereNamed(node, s, key);
    }
  }

  /** Every claim but `uid` keeps its entry, its teardown mark and its CDI file. */
  predicate OthersKeep(s: State, t: State, uid: Uid) {
    && t.claims - {uid} == s.claims - {uid}
    && t.begun - {uid} == s.begun - {uid}
    && t.cdi - {uid} == s.cdi - {uid}
  }

  lemma RolledBackStays(node: Node, s: State, t: State, name: string)
    requires OnlyRemoves(s, t) && NameRolledBack(node, s, name)
    ensures NameRolledBack(node, t, name)
  {
    var ms := NewMigSpecTupleFromCanonicalName(name);
    if ms.Ok? && !s.ListedByCompleted(name) {
      var parent := node.parentOf(ms.value).value;
      forall k | k in t.gis && k.parent == parent && t.gis[k].Visible() ensures !Answers(t.gis[k], ms.value) {
      }
    }
    if s.ListedByCompleted(name) {
      var uid :| uid in s.claims && s.claims[uid].phase == PrepareCompleted && name in s.claims[uid].Names();
      assert uid in t.claims;
    }
  }

  lemma OtherNamesAreRolledBack(node: Node, s: State, name: string)
    requires NewMigSpecTupleFromCanonicalName(name).Err?
    ensures NameRolledBack(node, s, name)
  {
  }

  lemma TearDownGoesOn(node: Node, s: State, cause: Cause, key: GiKey)
    requires key in s.gis && MayTearDown(node, s, cause, key)
    ensures MayTearDown(node, s.(gis := s.gis[key := s.gis[key].(ci := None)]), cause, key)
  {
    var t := s.(gis := s.gis[key := s.gis[key].(ci := None)]);
    assert t.claims == s.claims;
  }

  lemma UnlistedMayBeSwept(node: Node, s: State, key: GiKey)
    requires key in s.gis && !s.ListedByCompleted(node.GiName(key, s.gis[key]))
    ensures MayTearDown(node, s, StartupSweep, key)
  {
  }

  lemma MadeRecord(node: Node, s: State, uid: Uid, device: string, key: GiKey, mig: MigLiveTuple)
    requires mig.Key() == key && key in s.gis && s.gis[key].ci == Some(mig.ciId) && key in s.made && s.made[key] == uid
    requires node.Creates(device, key, s.gis[key])
    ensures RecordMade(node, s, uid, PreparedMigDevice(mig, DeviceRef([], "", device)))
  {
  }

  lemma RolledBackSurvivesRemoval(node: Node, s: State, uid: Uid, name: string)
    requires s.Started(uid) && NameRolledBack(node, s, name)
    ensures NameRolledBack(node, s.(claims := s.claims - {uid}, begun := s.begun - {uid}), name)
  {
    var t := s.(claims := s.claims - {uid}, begun := s.begun - {uid});
    if s.ListedByCompleted(name) {
      var u :| u in s.claims && s.claims[u].phase == PrepareCompleted && name in s.claims[u].Names();
      assert u in t.claims && u != uid;
    }
  }

  /** The one device that answers is gone, so none answers: a second one would overlap it. */
  lemma NoSecondAnswer(s: State, t: State, key: GiKey, ms: MigSpecTuple)
    requires PlacementsApart(s) && OnlyRemoves(s, t)
    requires key in s.gis && Answers(s.gis[key], ms) && key !in t.gis
    ensures t.NoneVisible(key.parent, ms)
  {
    forall k | k in t.gis && k.parent == key.parent && t.gis[k].Visible() ensures !Answers(t.gis[k], ms) {
      assert k in s.gis && k != key && s.gis[k].size >= 1 && s.gis[key].size >= 1;
    }
  }

  // ------------------------------------------- results and the devices prepared for them

  function Ref(r: AllocationResult): DeviceRef {
    DeviceRef([r.request], r.pool, r.device)
  }

  /** `ref` names the result `r`: its request, its pool and its device. */
  predicate Denotes(ref: DeviceRef, r: AllocationResult) {
    ref.requests == [r.request] && ref.poolName == r.pool && ref.deviceName == r.device
  }

  /** The references name these results, each once, in some order. */
  ghost predicate DenotesEach(refs: seq<DeviceRef>, results: seq<AllocationResult>) {
    exists order: seq<AllocationResult> ::
      && multiset(order) == multiset(results) && |order| == |refs|
      && forall i :: 0 <= i < |refs| ==> Denotes(refs[i], order[i])
  }

  /** `d` is what the plugin keeps for the result `r`: the GPU itself, or a MIG device it has made. */
  ghost predicate DeviceMatches(node: Node, s: State, uid: Uid, d: PreparedDevice, r: AllocationResult) {
    && r.device in node.allocatable
    && match node.allocatable[r.device]
       case FullGpu => d.gpu.Some? && d == PreparedDevice(d.gpu, None, None) && Denotes(d.gpu.value, r)
       case DynamicMig(parent, _, _, _) =>
         && d.mig.Some? && d == PreparedDevice(None, d.mig, None)
         && Denotes(d.mig.value.device, r) && RecordMade(node, s, uid, d.mig.value)
         && d.mig.value.concrete.parentUuid == parent && d.mig.value.concrete.parentMinor == node.Minor(parent)
  }

  ghost predicate GroupMatches(node: Node, s: State, uid: Uid, group: PreparedGroup, results: seq<AllocationResult>) {
    |group| == |results| && forall i :: 0 <= i < |group| ==> DeviceMatches(node, s, uid, group[i], results[i])
  }

  /** One prepared group per configuration, in the order of the walk. */
  ghost predicate GroupsMatch(
    node: Node, s: State, uid: Uid, devices: PreparedDevices, m: map<nat, seq<AllocationResult>>, order: seq<nat>)
  {
    && |devices| == |order|
    && forall i :: 0 <= i < |order| ==> order[i] in m && GroupMatches(node, s, uid, devices[i], m[order[i]])
  }

  lemma MatchesWhileGrowing(node: Node, s: State, t: State, uid: Uid, group: PreparedGroup, results: seq<AllocationResult>)
    requires Grows(s, t) && GroupMatches(node, s, uid, group, results)
    ensures GroupMatches(node, t, uid, group, results)
  {
  }

  lemma GroupsStayMatched(
    node: Node, s: State, t: State, uid: Uid, devices: PreparedDevices, m: map<nat, seq<AllocationResult>>, order: seq<nat>)
    requires Grows(s, t) && GroupsMatch(node, s, uid, devices, m, order)
    ensures GroupsMatch(node, t, uid, devices, m, order)
  {
    forall i | 0 <= i < |order| ensures GroupMatches(node, t, uid, devices[i], m[order[i]]) {
      MatchesWhileGrowing(node, s, t, uid, devices[i], m[order[i]]);
    }
  }

  lemma {:induction false} GroupRefsDenote(node: Node, s: State, uid: Uid, group: PreparedGroup, results: seq<AllocationResult>)
    requires GroupMatches(node, s, uid, group, results)
    ensures |GroupRefs(group)| == |results|
    ensures forall i :: 0 <= i < |results| ==> Denotes(GroupRefs(group)[i], results[i])
  {
    if group != [] {
      var n := |group| - 1;
      GroupRefsDenote(node, s, uid, group[..n], results[..n]);
      assert DeviceMatches(node, s, uid, group[n], results[n]);
    }
  }

  lemma {:induction false} AllRefsDenote(
    node: Node, s: State, uid: Uid, devices: PreparedDevices, m: map<nat, seq<AllocationResult>>, order: seq<nat>)
    requires GroupsMatch(node, s, uid, devices, m, order)
    ensures |AllRefs(devices)| == |Visited(m, order)|
    ensures forall i :: 0 <= i < |AllRefs(devices)| ==> Denotes(AllRefs(devices)[i], Visited(m, order)[i])
  {
    if devices != [] {
      var n := |devices| - 1;
      AllRefsDenote(node, s, uid, devices[..n], m, order[..n]);
      GroupRefsDenote(node, s, uid, devices[n], m[order[n]]);
    }
  }

  predicate IsOwnMig(node: Node, r: AllocationResult) {
    r.driver == DRIVER_NAME && r.device in node.allocatable && node.allocatable[r.device].DynamicMig?
  }

  /** The prepared devices account for this driver's results, each exactly once; each is kept as what it
      is, and every MIG device among them was made for this claim. */
  ghost predicate Accounts(node: Node, s: State, uid: Uid, results: seq<AllocationResult>, devices: PreparedDevices) {
    && DenotesEach(AllRefs(devices), OfDriver(DRIVER_NAME, results))
    && (forall group, d :: group in devices && d in group ==>
          exists r :: r in results && r.driver == DRIVER_NAME && DeviceMatches(node, s, uid, d, r))
    && (forall rec :: rec in MigRecords(devices) ==>
          rec.device.deviceName in DeviceNames(results) && RecordMade(node, s, uid, rec))
    && (forall r :: r in results && IsOwnMig(node, r) ==>
          exists rec :: rec in MigRecords(devices) && rec.device.deviceName == r.device)
  }

  lemma MatchStays(node: Node, s: State, t: State, uid: Uid)
    requires t.gis == s.gis && t.made == s.made
    ensures forall d, r :: DeviceMatches(node, s, uid, d, r) ==> DeviceMatches(node, t, uid, d, r)
    ensures forall rec :: RecordMade(node, s, uid, rec) ==> RecordMade(node, t, uid, rec)
  {
    hide Denotes;
  }

  lemma AccountsStay(
    node: Node, s: State, t: State, uid: Uid, results: seq<AllocationResult>, devices: PreparedDevices)
    requires t.gis == s.gis && t.made == s.made && Accounts(node, s, uid, results, devices)
    ensures Accounts(node, t, uid, results, devices)
  {
    hide DeviceMatches, RecordMade, DenotesEach, MigRecords, AllRefs;
    MatchStays(node, s, t, uid);
  }

  lemma AccountsDenote(node: Node, s: State, uid: Uid, results: seq<AllocationResult>, devices: PreparedDevices)
    requires Accounts(node, s, uid, results, devices)
    ensures DenotesEach(AllRefs(devices), OfDriver(DRIVER_NAME, results))
  {
    hide DeviceMatches, RecordMade, DenotesEach;
  }

  lemma AccountedMayComplete(node: Node, s: State, uid: Uid, entry: PreparedClaim)
    requires s.Started(uid) && entry.phase == PrepareCompleted && entry.results == s.claims[uid].results
    requires s.FreeOfCompleted(uid, entry.results) && Accounts(node, s, uid, entry.results, entry.devices)
    ensures MayComplete(node, s, uid, entry)
  {
    hide DeviceMatches, RecordMade, DenotesEach, MigRecords, AllRefs, NobodyElseHolds;
  }

  lemma StartedDoesNotHold(
    claims: map<Uid, PreparedClaim>, uid: Uid, entry: PreparedClaim, results: seq<AllocationResult>)
    requires NobodyElseHolds(claims, uid, results)
    ensures NobodyElseHolds(claims[uid := entry], uid, results)
  {
  }

  lemma DeviceComesFromResult(
    node: Node, s: State, uid: Uid, devices: PreparedDevices, m: map<nat, seq<AllocationResult>>, order: seq<nat>,
    group: PreparedGroup, d: PreparedDevice) returns (j: nat, r: AllocationResult)
    requires GroupsMatch(node, s, uid, devices, m, order) && group in devices && d in group
    ensures j in m && r in m[j] && DeviceMatches(node, s, uid, d, r)
  {
    var i :| 0 <= i < |devices| && devices[i] == group;
    var k :| 0 <= k < |group| && group[k] == d;
    j := order[i];
    assert GroupMatches(node, s, uid, devices[i], m[j]);
    r := m[j][k];
  }

  lemma RecordsAreMade(
    node: Node, s: State, uid: Uid, devices: PreparedDevices, m: map<nat, seq<AllocationResult>>, order: seq<nat>,
    rec: PreparedMigDevice) returns (j: nat, r: AllocationResult)
    requires GroupsMatch(node, s, uid, devices, m, order) && rec in MigRecords(devices)
    ensures j in m && r in m[j] && rec.device.deviceName == r.device && RecordMade(node, s, uid, rec)
  {
    var i, k :| 0 <= i < |devices| && 0 <= k < |devices[i]| && devices[i][k].Kind() == MigKind && devices[i][k].mig.value == rec;
    j := order[i];
    assert j in m && GroupMatches(node, s, uid, devices[i], m[j]);
    r := m[j][k];
    var d := devices[i][k];
    assert DeviceMatches(node, s, uid, d, r);
    assert node.allocatable[r.device].FullGpu? ==> d.Kind() == GpuKind;
  }

  lemma MigResultIsRecorded(
    node: Node, s: State, uid: Uid, devices: PreparedDevices, m: map<nat, seq<AllocationResult>>, order: seq<nat>,
    j: nat, r: AllocationResult)
    requires GroupsMatch(node, s, uid, devices, m, order) && j in order && j in m && r in m[j]
    requires IsOwnMig(node, r)
    ensures exists rec :: rec in MigRecords(devices) && rec.device.deviceName == r.device
  {
    var i :| 0 <= i < |order| && order[i] == j;
    assert GroupMatches(node, s, uid, devices[i], m[j]);
    var k :| 0 <= k < |m[j]| && m[j][k] == r;
    var d := devices[i][k];
    assert DeviceMatches(node, s, uid, d, r);
    assert devices[i] in devices && d in devices[i] && d.Kind() == MigKind;
    assert d.mig.value in MigRecords(devices);
  }

  // ------------------------------------------------------------ configurations

  datatype DeviceConfig = GpuConfig | MigDeviceConfig | VfioDeviceConfig | OtherConfig

  predicate Fits(config: DeviceConfig, kind: DeviceKind) {
    match config
    case GpuConfig => kind == GpuKind
    case MigDeviceConfig => kind == MigKind
    case VfioDeviceConfig => kind == VfioKind
    case OtherConfig => true
  }

  function KindOf(a: Allocatable): DeviceKind {
    if a.FullGpu? then GpuKind else MigKind
  }

  function DeviceKinds(node: Node): map<string, DeviceKind> {
    map n <- node.allocatable :: KindOf(node.allocatable[n])
  }

  function WithDefaults(configs: seq<OpaqueDeviceConfig<DeviceConfig>>): seq<OpaqueDeviceConfig<DeviceConfig>> {
    [OpaqueDeviceConfig([], MigDeviceConfig), OpaqueDeviceConfig([], GpuConfig)] + configs
  }

  /** The two defaults in front leave no result of a known device without a configuration. */
  lemma DefaultsMakeTheScanTotal(
    node: Node, configs: seq<OpaqueDeviceConfig<DeviceConfig>>, results: seq<AllocationResult>)
    requires forall r :: r in results && r.driver == DRIVER_NAME ==> r.device in node.allocatable
    ensures Total(Fits, WithDefaults(configs), DeviceKinds(node), DRIVER_NAME, results)
  {
    var all := WithDefaults(configs);
    var kinds := DeviceKinds(node);
    forall r | r in results && r.driver == DRIVER_NAME ensures Of(Fits, all, kinds, r).Some? {
      ScanIsTotal(Fits, all, kinds, r);
      assert all[0] in all && all[1] in all;
    }
  }

  /** From the walk over the configuration map to what a completed claim must account for. */
  lemma WalkAccounts(
    node: Node, s: State, uid: Uid, configs: seq<OpaqueDeviceConfig<DeviceConfig>>, results: seq<AllocationResult>,
    m: map<nat, seq<AllocationResult>>, order: seq<nat>, devices: PreparedDevices)
    requires IsResultsMap(Fits, WithDefaults(configs), DeviceKinds(node), DRIVER_NAME, results, m)
    requires forall r :: r in results && r.driver == DRIVER_NAME ==> r.device in node.allocatable
    requires IsOrderOf(order, m.Keys) && GroupsMatch(node, s, uid, devices, m, order)
    ensures Accounts(node, s, uid, results, devices)
  {
    var all, kinds := WithDefaults(configs), DeviceKinds(node);
    DefaultsMakeTheScanTotal(node, configs, results);
    AnyWalkPartitions(Fits, all, kinds, DRIVER_NAME, results, m, order);
    AllRefsDenote(node, s, uid, devices, m, order);
    forall group, d | group in devices && d in group
      ensures exists r :: r in results && r.driver == DRIVER_NAME && DeviceMatches(node, s, uid, d, r)
    {
      var j, r := DeviceComesFromResult(node, s, uid, devices, m, order, group, d);
      GroupMembers(Fits, all, kinds, DRIVER_NAME, results, j);
    }
    forall rec | rec in MigRecords(devices)
      ensures rec.device.deviceName in DeviceNames(results) && RecordMade(node, s, uid, rec)
    {
      var j, r := RecordsAreMade(node, s, uid, devices, m, order, rec);
      GroupMembers(Fits, all, kinds, DRIVER_NAME, results, j);
    }
    forall r | r in results && IsOwnMig(node, r)
      ensures exists rec :: rec in MigRecords(devices) && rec.device.deviceName == r.device
    {
      var j := Of(Fits, all, kinds, r).value;
      GroupMembers(Fits, all, kinds, DRIVER_NAME, results, j);
      MigResultIsRecorded(node, s, uid, devices, m, order, j, r);
    }
  }
}
