/** The GPU kubelet plugin's device state: Prepare, Unprepare, the rollback of half-prepared claims and the
    startup sweep, as methods over durable state. Every write that survives a crash is one step of
    `GpuProtocol` and is recorded in `history`; an operation may fail after any of them. NVML, the file
    system and configuration side effects fail at will (`if *`). */
module GpuPlugin {
  import opened Basics
  import opened Claims
  import opened Configs
  import opened MigNames
  import opened GpuProtocol
  import opened GpuInvariants
  import opened GpuOrphans
  import opened DeviceRelations

  datatype ResourceClaim = ResourceClaim(
    uid: Uid, name: string, namespace_: string, results: seq<AllocationResult>,
    configs: seq<DeviceAllocationConfiguration>)

  function StartedEntry(claim: ResourceClaim): PreparedClaim {
    PreparedClaim(PrepareStarted, claim.results, [], claim.name, claim.namespace_)
  }

  function CompletedEntry(claim: ResourceClaim, devices: PreparedDevices): PreparedClaim {
    PreparedClaim(PrepareCompleted, claim.results, devices, "", "")
  }

  /** The one reference of a prepared device: its GPU's, or else its MIG device's, or else its VFIO device's. */
  predicate IsFor(d: PreparedDevice, ref: DeviceRef) {
    if d.gpu.Some? then ref == d.gpu.value
    else if d.mig.Some? then ref == d.mig.value.device
    else d.vfio == Some(ref)
  }

  lemma {:induction false} GroupRefsMembers(group: PreparedGroup)
    ensures forall ref :: ref in GroupRefs(group) <==> exists d :: d in group && IsFor(d, ref)
  {
    if group != [] {
      var init, last := group[..|group| - 1], group[|group| - 1];
      assert group == init + [last];
      GroupRefsMembers(init);
      assert forall ref :: ref in last.Refs() <==> IsFor(last, ref);
    }
  }

  lemma {:induction false} AllRefsMembers(devices: PreparedDevices)
    ensures forall ref :: ref in AllRefs(devices) <==> exists group, d :: group in devices && d in group && IsFor(d, ref)
  {
    hide IsFor;
    if devices != [] {
      var init, last := devices[..|devices| - 1], devices[|devices| - 1];
      assert devices == init + [last];
      AllRefsMembers(init);
      GroupRefsMembers(last);
    }
  }

  /** The loop over groups and devices that lists what a claim was given. */
  method GetDevices(devices: PreparedDevices) returns (refs: seq<DeviceRef>)
    ensures refs == AllRefs(devices)
    ensures forall ref :: ref in refs <==> exists group, d :: group in devices && d in group && IsFor(d, ref)
  {
    AllRefsMembers(devices);
    refs := [];
    for i := 0 to |devices|
      invariant refs == AllRefs(devices[..i])
    {
      var group := devices[i];
      var groupRefs: seq<DeviceRef> := [];
      for k := 0 to |group|
        invariant groupRefs == GroupRefs(group[..k])
      {
        assert group[..k + 1][..k] == group[..k];
        match group[k].Kind()
        case GpuKind => groupRefs := groupRefs + [group[k].gpu.value];
        case MigKind => groupRefs := groupRefs + [group[k].mig.value.device];
        case VfioKind => groupRefs := groupRefs + [group[k].vfio.value];
        case UnknownKind =>
      }
      assert group[..|group|] == group;
      assert devices[..i + 1][..i] == devices[..i];
      refs := refs + groupRefs;
    }
    assert devices[..|devices|] == devices;
  }

  /** No GPU is found for a MIG name that no completed claim lists, so it cannot be rolled back. */
  predicate Unfindable(node: Node, claims: map<Uid, PreparedClaim>, name: string) {
    var ms := NewMigSpecTupleFromCanonicalName(name);
    ms.Ok? && !ListedIn(claims, name) && node.parentOf(ms.value).None?
  }

  /** What makes an Unprepare fail by itself: a state that is none of the two, a name that cannot be rolled
      back, or a record of a GPU that is not there. */
  predicate IsStuck(node: Node, claims: map<Uid, PreparedClaim>, uid: Uid)
    requires uid in claims
  {
    match claims[uid].phase
    case Unset => true
    case PrepareStarted => exists name :: name in claims[uid].Names() && Unfindable(node, claims, name)
    case PrepareCompleted => exists rec :: rec in claims[uid].Records() && rec.concrete.parentUuid !in node.minors
  }

  predicate AllKnown(configs: seq<OpaqueDeviceConfig<DeviceConfig>>, m: map<nat, seq<AllocationResult>>) {
    forall j :: j in m && j < |configs| ==> configs[j].config != OtherConfig
  }

  /** The defaults in front, then class configurations, then claim configurations. */
  function ConfigsOf(decode: string -> Result<DeviceConfig>, raw: seq<DeviceAllocationConfiguration>)
    : seq<OpaqueDeviceConfig<DeviceConfig>>
  {
    WithDefaults(Decoded(decode, DRIVER_NAME, FromSource(FromClass, raw)) + Decoded(decode, DRIVER_NAME, FromSource(FromClaim, raw)))
  }

  predicate Resolvable(decode: string -> Result<DeviceConfig>, node: Node, claim: ResourceClaim) {
    && (forall c :: c in claim.configs ==> Acceptable(decode, DRIVER_NAME, c))
    && (forall r :: r in claim.results && r.driver == DRIVER_NAME ==>
          !Rejected(Fits, ConfigsOf(decode, claim.configs), DeviceKinds(node), r))
  }

  /** The configurations can be read, every result of this driver is for a known device and not mistyped, and
      each configuration that governs something is of a known kind. */
  predicate Preparable(decode: string -> Result<DeviceConfig>, node: Node, claim: ResourceClaim) {
    var all := ConfigsOf(decode, claim.configs);
    && Resolvable(decode, node, claim)
    && forall j :: 0 <= j < |all| && Group(Fits, all, DeviceKinds(node), DRIVER_NAME, claim.results, j) != [] ==>
         all[j].config != OtherConfig
  }

  lemma PreparableIsResolvable(decode: string -> Result<DeviceConfig>, node: Node, claim: ResourceClaim)
    ensures Preparable(decode, node, claim) ==> Resolvable(decode, node, claim)
  {
  }

  /** Then a result for a full GPU is governed by a GPU configuration, and one for a MIG device by a MIG
      configuration. */
  lemma ConfigsFitTheirDevices(decode: string -> Result<DeviceConfig>, node: Node, claim: ResourceClaim, r: AllocationResult)
    requires Preparable(decode, node, claim) && r in claim.results && r.driver == DRIVER_NAME
    ensures r.device in node.allocatable
    ensures var all := ConfigsOf(decode, claim.configs);
            var g := Of(Fits, all, DeviceKinds(node), r);
            g.Some? && all[g.value].config == if node.allocatable[r.device].FullGpu? then GpuConfig else MigDeviceConfig
  {
    var all, kinds := ConfigsOf(decode, claim.configs), DeviceKinds(node);
    DefaultsMakeTheScanTotal(node, all[2..], claim.results);
    assert all == WithDefaults(all[2..]);
    var j := Of(Fits, all, kinds, r).value;
    GroupMembers(Fits, all, kinds, DRIVER_NAME, claim.results, j);
    assert !Rejected(Fits, all, kinds, r);
    assert r in Group(Fits, all, kinds, DRIVER_NAME, claim.results, j);
  }

  /** If a configuration of the class or the claim matches, the last one that does governs, never a default. */
  lemma OwnConfigBeatsDefaults(
    decode: string -> Result<DeviceConfig>, node: Node, claim: ResourceClaim, r: AllocationResult,
    own: seq<OpaqueDeviceConfig<DeviceConfig>>, k: nat)
    requires own == Decoded(decode, DRIVER_NAME, FromSource(FromClass, claim.configs)) +
                    Decoded(decode, DRIVER_NAME, FromSource(FromClaim, claim.configs))
    requires r.device in node.allocatable
    requires Governs(Fits, own, k, r.request, if node.allocatable[r.device].FullGpu? then GpuKind else MigKind)
    ensures var all := ConfigsOf(decode, claim.configs);
            var g := Of(Fits, all, DeviceKinds(node), r);
            g.Some? && all[g.value] == own[k]
  {
    var all, kind := ConfigsOf(decode, claim.configs), DeviceKinds(node)[r.device];
    GoverningIsUnique(Fits, own, k, r.request, kind);
    GoverningConcat(Fits, all[..2], own, |own|, r.request, kind);
    assert all == all[..2] + own;
  }

  lemma PreparableIff(
    decode: string -> Result<DeviceConfig>, node: Node, claim: ResourceClaim, m: map<nat, seq<AllocationResult>>)
    requires Resolvable(decode, node, claim)
    requires IsResultsMap(Fits, ConfigsOf(decode, claim.configs), DeviceKinds(node), DRIVER_NAME, claim.results, m)
    ensures Preparable(decode, node, claim) <==> AllKnown(ConfigsOf(decode, claim.configs), m)
  {
    hide Resolvable, ConfigsOf;
  }

  class DeviceState {
    const node: Node
    const decode: string -> Result<DeviceConfig>
    const migEnabledAtStart: set<string>

    var claims: map<Uid, PreparedClaim>
    var gis: map<GiKey, Gi>
    var migMode: set<string>
    var cdi: set<Uid>

    ghost var begun: set<Uid>
    ghost var made: map<GiKey, Uid>
    ghost var history: Run

    /** How often something outside has failed or refused: NVML, the file system, a side effect of a
        configuration. An error without such a fault has a reason that the caller could have checked. */
    ghost var faults: nat

    /** For which GPUs NVML was asked to disable MIG mode; it may say yes and yet leave it on. */
    ghost var asked: seq<string>

    ghost function View(): State
      reads this`claims, this`gis, this`migMode, this`cdi, this`begun, this`made
    {
      State(claims, gis, migMode, cdi, begun, made)
    }

    ghost predicate Valid()
      reads this`claims, this`gis, this`migMode, this`cdi, this`begun, this`made, this`history
    {
      && ValidNode(node) && Hardware(node, View())
      && IsRun(node, history) && history.s == View()
    }

    /** A plugin that starts, or starts again after a crash, over what an earlier run left behind. */
    constructor (node: Node, decode: string -> Result<DeviceConfig>, migEnabledAtStart: set<string>,
                 claims: map<Uid, PreparedClaim>, gis: map<GiKey, Gi>, migMode: set<string>, cdi: set<Uid>,
                 ghost earlier: Run)
      requires ValidNode(node) && IsRun(node, earlier) && Hardware(node, earlier.s)
      requires claims == earlier.s.claims && gis == earlier.s.gis && migMode == earlier.s.migMode && cdi == earlier.s.cdi
      ensures Valid() && history == earlier && this.node == node && this.decode == decode
    {
      this.node, this.decode, this.migEnabledAtStart := node, decode, migEnabledAtStart;
      this.claims, this.gis, this.migMode, this.cdi := claims, gis, migMode, cdi;
      this.begun, this.made, this.history, this.faults, this.asked := earlier.s.begun, earlier.s.made, earlier, 0, [];
    }

    /** Whatever operations have been performed from a sound start, and wherever the plugin died among their
        steps: two completed claims hold no device twice; the MIG devices of a completed claim are live
        until its own teardown begins; and if no step dropped the last claim that leads to a visible
        device (without admin access none does) every visible device is led to by a claim. */
    lemma CrashAnywhere(crash: Run)
      requires Valid() && Continues(crash, history) && SoundStart(node, First(history))
      ensures DisjointInv(crash.s)
      ensures NeverMisled(node) && OrderlyRun(node, history) ==>
                forall uid, rec :: (uid in crash.s.claims && crash.s.Completed(uid) && uid !in crash.s.begun &&
                                    rec in crash.s.claims[uid].Records()) ==> Live(node, crash.s, rec)
      ensures LedHome(node) && OrderlyRun(node, history) && CleanDrops(node, history) ==> OrphanFree(node, crash.s)
      ensures LedHome(node) && OrderlyRun(node, history) && NoAdminRun(history) && NoAdminInv(node, First(history)) ==>
                OrphanFree(node, crash.s)
    {
      ContinuesIsExtends(crash, history);
      EveryPrefixIsRun(node, crash, history);
      CompletedClaimsAreDisjoint(node, crash);
      if NeverMisled(node) && OrderlyRun(node, history) {
        forall uid, rec | uid in crash.s.claims && crash.s.Completed(uid) && uid !in crash.s.begun &&
                          rec in crash.s.claims[uid].Records()
          ensures Live(node, crash.s, rec)
        {
          CompletedDevicesStayLive(node, crash, uid, rec);
        }
      }
      if LedHome(node) && OrderlyRun(node, history) {
        if NoAdminRun(history) && NoAdminInv(node, First(history)) {
          NoAdminRunIsClean(node, history);
        }
        NoOrphansIff(node, history);
      }
    }

    // -------------------------------------------------------------- durable steps

    ghost method Log(l: Label)
      requires ValidNode(node) && IsRun(node, history) && Hardware(node, history.s)
      requires Enabled(node, history.s, l) && View() == Apply(history.s, l)
      modifies this`history
      ensures Valid() && Continues(old(history), history)
    {
      HardwareStep(node, history.s, l);
      history := Then(history, l, View());
    }

    ghost method MarkTeardown(uid: Uid)
      requires Valid() && View().Completed(uid)
      modifies this`begun, this`history
      ensures Valid() && Continues(old(history), history) && begun == old(begun) + {uid}
    {
      begun := begun + {uid};
      Log(BeginUnprepare(uid));
    }

    method UpdateStarted(uid: Uid, entry: PreparedClaim) returns (r: Result<()>)
      requires Valid() && Enabled(node, View(), WriteStarted(uid, entry))
      modifies this`claims, this`begun, this`history, this`faults
      ensures Valid() && Continues(old(history), history)
      ensures faults >= old(faults) && (r.Err? ==> faults > old(faults))
      ensures r.Ok? ==> claims == old(claims)[uid := entry] && begun == old(begun) - {uid}
      ensures r.Err? ==> claims == old(claims) && begun == old(begun)
    {
      if * {
        faults := faults + 1;
        return Err(StoreFailure);
      }
      claims, begun := claims[uid := entry], begun - {uid};
      Log(WriteStarted(uid, entry));
      return Ok(());
    }

    method UpdateCompleted(uid: Uid, entry: PreparedClaim) returns (r: Result<()>)
      requires Valid() && Enabled(node, View(), WriteCompleted(uid, entry))
      modifies this`claims, this`begun, this`history, this`faults
      ensures Valid() && Continues(old(history), history)
      ensures faults >= old(faults) && (r.Err? ==> faults > old(faults))
      ensures r.Ok? ==> claims == old(claims)[uid := entry] && begun == old(begun) - {uid}
      ensures r.Err? ==> claims == old(claims) && begun == old(begun)
    {
      if * {
        faults := faults + 1;
        return Err(StoreFailure);
      }
      claims, begun := claims[uid := entry], begun - {uid};
      Log(WriteCompleted(uid, entry));
      return Ok(());
    }

    method DeleteClaimFromCheckpoint(uid: Uid) returns (r: Result<()>)
      requires Valid() && Enabled(node, View(), RemoveEntry(uid))
      modifies this`claims, this`begun, this`history, this`faults
      ensures Valid() && Continues(old(history), history)
      ensures faults >= old(faults) && (r.Err? ==> faults > old(faults))
      ensures r.Ok? ==> claims == old(claims) - {uid} && begun == old(begun) - {uid}
      ensures r.Err? ==> claims == old(claims) && begun == old(begun)
    {
      if * {
        faults := faults + 1;
        return Err(StoreFailure);
      }
      claims, begun := claims - {uid}, begun - {uid};
      Log(RemoveEntry(uid));
      return Ok(());
    }

    method CreateClaimSpecFile(uid: Uid) returns (r: Result<()>)
      requires Valid() && View().Started(uid)
      modifies this`cdi, this`history, this`faults
      ensures Valid() && Continues(old(history), history)
      ensures faults >= old(faults) && (r.Err? ==> faults > old(faults))
      ensures cdi == if r.Ok? then old(cdi) + {uid} else old(cdi)
    {
      if * {
        faults := faults + 1;
        return Err(FileFailure);
      }
      cdi := cdi + {uid};
      Log(WriteCdi(uid));
      return Ok(());
    }

    method DeleteClaimSpecFile(uid: Uid) returns (r: Result<()>)
      requires Valid() && uid in claims
      modifies this`cdi, this`history, this`faults
      ensures Valid() && Continues(old(history), history)
      ensures faults >= old(faults) && (r.Err? ==> faults > old(faults))
      ensures cdi == if r.Ok? then old(cdi) - {uid} else old(cdi)
    {
      if * {
        faults := faults + 1;
        return Err(FileFailure);
      }
      cdi := cdi - {uid};
      Log(DeleteCdi(uid));
      return Ok(());
    }

    method DestroyComputeInstance(key: GiKey, ghost cause: Cause) returns (r: Result<()>)
      requires Valid() && key in gis && gis[key].ci.Some? && MayTearDown(node, View(), cause, key)
      modifies this`gis, this`history, this`faults
      ensures Valid() && Continues(old(history), history)
      ensures faults >= old(faults) && (r.Err? ==> faults > old(faults))
      ensures gis == if r.Ok? then old(gis)[key := old(gis)[key].(ci := None)] else old(gis)
    {
      if * {
        faults := faults + 1;
        return Err(DeviceFailure);
      }
      gis := gis[key := gis[key].(ci := None)];
      Log(DestroyCi(cause, key));
      return Ok(());
    }

    /** A GPU instance that still holds a compute instance is in use and cannot be destroyed. */
    method DestroyGpuInstance(key: GiKey, ghost cause: Cause) returns (r: Result<()>)
      requires Valid() && key in gis && MayTearDown(node, View(), cause, key)
      modifies this`gis, this`history, this`faults
      ensures Valid() && Continues(old(history), history)
      ensures faults >= old(faults) && (r.Err? ==> faults > old(faults))
      ensures gis == if r.Ok? then old(gis) - {key} else old(gis)
      ensures old(gis)[key].ci.Some? ==> r.Err?
    {
      if gis[key].ci.Some? {
        faults := faults + 1;
        return Err(InUse);
      }
      if * {
        faults := faults + 1;
        return Err(DeviceFailure);
      }
      gis := gis - {key};
      Log(DestroyGi(cause, key));
      return Ok(());
    }

    method EnableMigMode(parent: string) returns (r: Result<()>)
      requires Valid() && parent in node.minors
      modifies this`migMode, this`history, this`faults
      ensures Valid() && Continues(old(history), history)
      ensures faults >= old(faults) && (r.Err? ==> faults > old(faults))
      ensures migMode == if r.Ok? then old(migMode) + {parent} else old(migMode)
    {
      if * {
        faults := faults + 1;
        return Err(DeviceFailure);
      }
      migMode := migMode + {parent};
      Log(EnableMig(parent));
      return Ok(());
    }

    /** NVML picks an id that is not in use, and refuses an occupied placement. */
    method CreateGpuInstance(ghost uid: Uid, ghost device: string, parent: string, gi: Gi) returns (r: Result<GiKey>)
      requires Valid() && View().Started(uid) && device in claims[uid].Names()
      requires View().FreeOfCompleted(uid, claims[uid].results)
      requires gi.ci.None? && parent in node.minors && parent in migMode && node.Creates(device, GiKey(parent, 0), gi)
      modifies this`gis, this`made, this`history, this`faults
      ensures Valid() && Continues(old(history), history)
      ensures faults >= old(faults) && (r.Err? ==> faults > old(faults))
      ensures r.Ok? ==> r.value !in old(gis) && r.value.parent == parent &&
                        gis == old(gis)[r.value := gi] && made == old(made)[r.value := uid]
      ensures r.Err? ==> gis == old(gis) && made == old(made)
    {
      var giId: nat := *;
      var key := GiKey(parent, giId);
      if key in gis {
        faults := faults + 1;
        return Err(DeviceFailure);
      }
      if exists k :: k in gis && k.parent == parent && !(gis[k].start + gis[k].size <= gi.start || gi.start + gi.size <= gis[k].start) {
        faults := faults + 1;
        return Err(InsufficientResources);
      }
      if * {
        faults := faults + 1;
        return Err(DeviceFailure);
      }
      assert View().PlacementFree(parent, gi.start, gi.size);
      gis, made := gis[key := gi], made[key := uid];
      Log(CreateGi(uid, device, key, gi));
      return Ok(key);
    }

    method CreateComputeInstance(ghost uid: Uid, ghost device: string, key: GiKey) returns (r: Result<nat>)
      requires Valid() && View().Started(uid) && device in claims[uid].Names()
      requires View().FreeOfCompleted(uid, claims[uid].results)
      requires key in gis && gis[key].ci.None? && node.Creates(device, key, gis[key])
      modifies this`gis, this`history, this`faults
      ensures Valid() && Continues(old(history), history)
      ensures faults >= old(faults) && (r.Err? ==> faults > old(faults))
      ensures gis == if r.Ok? then old(gis)[key := old(gis)[key].(ci := Some(r.value))] else old(gis)
    {
      if * {
        faults := faults + 1;
        return Err(DeviceFailure);
      }
      var ciId: nat := *;
      gis := gis[key := gis[key].(ci := Some(ciId))];
      Log(CreateCi(uid, device, key, ciId));
      return Ok(ciId);
    }

    // --------------------------------------------------------------- device library

    /** MIG devices are looked for on GPUs that were in MIG mode when the plugin started. */
    predicate ShowsDevices(parent: string)
      reads this`gis
    {
      parent in migEnabledAtStart && exists k :: k in gis && k.parent == parent && gis[k].Visible()
    }

    method MaybeDisableMigMode(parent: string) returns (r: Result<()>)
      requires Valid()
      modifies this`migMode, this`history, this`faults, this`asked
      ensures Valid() && Continues(old(history), history)
      ensures migMode == old(migMode) || (migMode == old(migMode) - {parent} && forall k :: k in gis ==> k.parent != parent)
      ensures faults >= old(faults) && (r.Err? ==> faults > old(faults) || parent !in node.minors)
      ensures r.Ok? ==> asked == if ShowsDevices(parent) then old(asked) else old(asked) + [parent]
    {
      if parent !in node.minors {
        return Err(UnknownDevice);
      }
      if ShowsDevices(parent) {
        return Ok(());
      }
      if * {
        faults := faults + 1;
        return Err(DeviceFailure);
      }
      asked := asked + [parent];
      if forall k :: k in gis ==> k.parent != parent {
        if * {
          migMode := migMode - {parent};
          Log(DisableMig(parent));
        }
      }
      return Ok(());
    }

    method CreateMigDevice(ghost uid: Uid, ghost device: string, parent: string, profileId: nat, start: nat, size: nat)
      returns (r: Result<MigLiveTuple>)
      requires Valid() && View().Started(uid) && device in claims[uid].Names()
      requires device in node.allocatable && node.allocatable[device] == DynamicMig(parent, profileId, start, size)
      requires View().FreeOfCompleted(uid, claims[uid].results)
      modifies this`gis, this`migMode, this`made, this`history, this`faults, this`asked
      ensures Valid() && Continues(old(history), history) && Grows(old(View()), View())
      ensures faults >= old(faults) && (r.Err? ==> faults > old(faults))
      ensures r.Ok? ==> RecordMade(node, View(), uid, PreparedMigDevice(r.value, DeviceRef([], "", device)))
      ensures r.Ok? ==> r.value.parentUuid == parent && r.value.parentMinor == node.Minor(parent)
    {
      hide Extends, IsRun, Hardware, ValidNode, RecordMade, NobodyElseHolds, DeviceNames;
      AnnouncedParent(device);
      if * {
        faults := faults + 1;
        return Err(DeviceFailure);
      }
      if parent !in migMode {
        var _ :- EnableMigMode(parent);
      }
      r := CreateInstances(uid, device, parent, Gi(profileId, start, size, None));
    }

    lemma AnnouncedParent(device: string)
      requires ValidNode(node) && device in node.allocatable && node.allocatable[device].DynamicMig?
      ensures node.allocatable[device].parent in node.minors
    {
      assert ValidAnnouncement(node, device, node.allocatable[device]);
    }

    /** The GPU instance and, inside it, the compute instance. If the second step fails the first one
        stays behind. */
    method CreateInstances(ghost uid: Uid, ghost device: string, parent: string, gi: Gi) returns (r: Result<MigLiveTuple>)
      requires Valid() && View().Started(uid) && device in claims[uid].Names()
      requires View().FreeOfCompleted(uid, claims[uid].results)
      requires gi.ci.None? && parent in node.minors && parent in migMode && node.Creates(device, GiKey(parent, 0), gi)
      modifies this`gis, this`made, this`history, this`faults
      ensures Valid() && Continues(old(history), history) && Grows(old(View()), View())
      ensures faults >= old(faults) && (r.Err? ==> faults > old(faults))
      ensures r.Ok? ==> RecordMade(node, View(), uid, PreparedMigDevice(r.value, DeviceRef([], "", device)))
      ensures r.Ok? ==> r.value.parentUuid == parent && r.value.parentMinor == node.Minor(parent)
    {
      hide Extends, IsRun, Hardware, ValidNode, RecordMade, NobodyElseHolds, DeviceNames;
      var key :- CreateGpuInstance(uid, device, parent, gi);
      var ciId :- CreateComputeInstance(uid, device, key);
      if * {
        faults := faults + 1;
        return Err(DeviceFailure);
      }
      var migUuid: string := *;
      var mig := MigLiveTuple(node.Minor(parent), key.giId, ciId, migUuid, parent);
      MadeRecord(node, View(), uid, device, key, mig);
      return Ok(mig);
    }

    method DeleteMigDevice(mig: MigLiveTuple, ghost cause: Cause) returns (r: Result<()>)
      requires Valid() && (mig.Key() in gis ==> MayTearDown(node, View(), cause, mig.Key()))
      modifies this`gis, this`migMode, this`history, this`faults, this`asked
      ensures Valid() && Continues(old(history), history) && OnlyRemoves(old(View()), View())
      ensures forall k :: k in old(gis) && k != mig.Key() ==> k in gis && gis[k] == old(gis)[k]
      ensures r.Ok? ==> mig.Key() !in gis
      // a compute instance with another id than the one on record is left alone, and keeps the GPU instance
      ensures mig.Key() in old(gis) && old(gis)[mig.Key()].ci.Some? && old(gis)[mig.Key()].ci != Some(mig.ciId) ==>
                r.Err? && gis == old(gis)
      ensures r.Ok? && mig.parentUuid in old(migMode) ==>
                asked == if ShowsDevices(mig.parentUuid) then old(asked) else old(asked) + [mig.parentUuid]
      ensures faults >= old(faults) && (r.Err? ==> faults > old(faults) || mig.parentUuid !in node.minors)
    {
      hide Extends, IsRun, Hardware, ValidNode, MayTearDown;
      var key := mig.Key();
      if * {
        faults := faults + 1;
        return Err(DeviceFailure);
      }
      if mig.parentUuid !in migMode {
        InstancesAreInMigMode(node, View());
        return Ok(());
      }
      if * {
        faults := faults + 1;
        return Err(DeviceFailure);
      }
      if key !in gis {
        r := MaybeDisableMigMode(mig.parentUuid);
        return;
      }
      if * {
        faults := faults + 1;
        return Err(DeviceFailure);
      }
      if gis[key].ci == Some(mig.ciId) {
        TearDownGoesOn(node, View(), cause, key);
        var _ :- DestroyComputeInstance(key, cause);
      }
      var _ :- DestroyGpuInstance(key, cause);
      r := MaybeDisableMigMode(mig.parentUuid);
    }

    /** The device that answers to the configuration, if any. Its compute-instance id may be unreadable,
        in which case 0 is reported. */
    method FindMigDevBySpec(ms: MigSpecTuple) returns (r: Result<Option<MigLiveTuple>>)
      requires Valid()
      modifies this`faults
      ensures faults >= old(faults) && (r.Err? ==> faults > old(faults) || node.parentOf(ms).None?)
      ensures r.Ok? ==> node.parentOf(ms).Some?
      ensures r.Ok? && r.value.None? ==> View().NoneVisible(node.parentOf(ms).value, ms)
      ensures r.Ok? && r.value.Some? ==> var key := r.value.value.Key();
                key.parent == node.parentOf(ms).value && key in gis && gis[key].Visible() && Answers(gis[key], ms)
    {
      var found := node.parentOf(ms);
      if found.None? {
        return Err(UnknownDevice);
      }
      var parent := found.value;
      var slots := set k | k in gis && k.parent == parent && gis[k].Visible();
      while slots != {}
        invariant faults >= old(faults)
        invariant forall k :: k in slots ==> k in gis && k.parent == parent && gis[k].Visible()
        invariant forall k :: k in gis && k.parent == parent && gis[k].Visible() && k !in slots ==> !Answers(gis[k], ms)
      {
        var key :| key in slots;
        slots := slots - {key};
        if * {
          faults := faults + 1;
          return Err(DeviceFailure);
        }
        if gis[key].profileId != ms.profileId {
          continue;
        }
        if gis[key].start != ms.placementStart {
          continue;
        }
        var ciId := gis[key].ci.value;
        if * {
          ciId := 0;
        }
        var migUuid: string := *;
        return Ok(Some(MigLiveTuple(if ms.parentMinor >= 0 then ms.parentMinor else 0, key.giId, ciId, migUuid, parent)));
      }
      return Ok(None);
    }

    // --------------------------------------------------------------------- rollback

    method IsListedByCompleted(name: string) returns (listed: bool)
      ensures listed == View().ListedByCompleted(name)
      ensures listed <==> exists u, x :: u in claims && claims[u].phase == PrepareCompleted && x in claims[u].results && x.device == name
    {
      var uids := claims.Keys;
      while uids != {}
        invariant uids <= claims.Keys
        invariant forall u :: u in claims && u !in uids && View().Completed(u) ==> name !in claims[u].Names()
      {
        var uid :| uid in uids;
        uids := uids - {uid};
        if claims[uid].phase != PrepareCompleted {
          continue;
        }
        var results := claims[uid].results;
        for i := 0 to |results|
          invariant forall k :: 0 <= k < i ==> results[k].device != name
        {
          if results[i].device == name {
            assert uid in claims && View().Completed(uid) && name in claims[uid].Names();
            return true;
          }
        }
      }
      listed := false;
    }

    /** Succeeds only with the name rolled back: no completed claim lists it and no device answers to it,
        or some completed claim lists it and nothing is touched. */
    method DeleteMigDevIfExistsAndNotUsedByCompletedClaim(ms: MigSpecTuple, name: string, ghost uid: Uid)
      returns (r: Result<()>)
      requires Valid() && View().Started(uid) && name in claims[uid].Names()
      requires NewMigSpecTupleFromCanonicalName(name) == Ok(ms)
      modifies this`gis, this`migMode, this`history, this`faults, this`asked
      ensures Valid() && Continues(old(history), history) && OnlyRemoves(old(View()), View())
      ensures r.Ok? ==> NameRolledBack(node, View(), name)
      ensures faults >= old(faults) && (r.Err? ==> faults > old(faults) || node.parentOf(ms).None?)
      ensures old(View()).ListedByCompleted(name) ==> r.Ok? && history == old(history)
    {
      var listed := IsListedByCompleted(name);
      if listed {
        return Ok(());
      }
      var mlt :- FindMigDevBySpec(ms);
      if mlt.None? {
        return Ok(());
      }
      ghost var before := View();
      r := DeleteMigDevice(mlt.value, Rollback(uid, name));
      if r.Ok? {
        NoSecondAnswer(before, View(), mlt.value.Key(), ms);
      }
    }

    method UnpreparePartiallyPreparedClaim(uid: Uid) returns (r: Result<()>)
      requires Valid() && View().Started(uid)
      modifies this`gis, this`migMode, this`history, this`faults, this`asked
      ensures Valid() && Continues(old(history), history) && OnlyRemoves(old(View()), View())
      ensures r.Ok? ==> RolledBack(node, View(), uid)
      ensures faults >= old(faults)
      ensures r.Err? ==> faults > old(faults) || exists name :: name in claims[uid].Names() && Unfindable(node, claims, name)
    {
      hide Extends, IsRun, Hardware, ValidNode, NameRolledBack, NewMigSpecTupleFromCanonicalName;
      var results := claims[uid].results;
      for i := 0 to |results|
        invariant Valid() && Continues(old(history), history) && faults >= old(faults) && OnlyRemoves(old(View()), View())
        invariant forall k :: 0 <= k < i ==> NameRolledBack(node, View(), results[k].device)
      {
        var name := results[i].device;
        var ms := NewMigSpecTupleFromCanonicalName(name);
        if ms.Err? {
          OtherNamesAreRolledBack(node, View(), name);
          continue;
        }
        ghost var before := View();
        assert name in claims[uid].Names();
        var _ :- DeleteMigDevIfExistsAndNotUsedByCompletedClaim(ms.value, name, uid);
        forall k | 0 <= k < i ensures NameRolledBack(node, View(), results[k].device) {
          RolledBackStays(node, before, View(), results[k].device);
        }
      }
      return Ok(());
    }

    // ---------------------------------------------------------------------- Prepare

    /** Succeeds exactly when no other completed claim holds one of the requested devices for itself. */
    method ValidateNoOverlappingPreparedDevices(uid: Uid, results: seq<AllocationResult>) returns (r: Result<()>)
      ensures r.Ok? <==> View().FreeOfCompleted(uid, results)
      ensures r.Ok? <==> forall u, x, y :: (u in claims && u != uid && claims[u].phase == PrepareCompleted &&
                                            x in claims[u].results && y in results) ==> !Clash(DRIVER_NAME, x, y)
    {
      forall u | u in claims
        ensures claims[u].NonAdmin() !! NonAdminDevices(DRIVER_NAME, results) <==>
                forall x, y :: x in claims[u].results && y in results ==> !Clash(DRIVER_NAME, x, y)
      {
        DisjointMeansNoClash(DRIVER_NAME, claims[u].results, results);
      }
      hide Clash, NonAdminDevices;
      var requested := CollectNonAdminDevices(DRIVER_NAME, results);
      if requested == {} {
        return Ok(());
      }
      var uids := claims.Keys;
      while uids != {}
        invariant uids <= claims.Keys
        invariant forall u :: u in claims && u !in uids && u != uid && View().Completed(u) ==> claims[u].NonAdmin() !! requested
      {
        var other :| other in uids;
        uids := uids - {other};
        if other == uid || claims[other].phase != PrepareCompleted {
          continue;
        }
        var prepared := CollectNonAdminDevices(DRIVER_NAME, claims[other].results);
        var overlap := prepared * requested;
        if overlap != {} {
          assert other in claims && View().Completed(other) && claims[other].NonAdmin() * requested != {};
          return Err(InUse);
        }
        assert forall x :: x in prepared && x in requested ==> x in overlap;
        assert claims[other].NonAdmin() == prepared;
      }
      return Ok(());
    }

    method PrepareResult(uid: Uid, result: AllocationResult) returns (r: Result<PreparedDevice>)
      requires Valid() && View().Started(uid) && View().FreeOfCompleted(uid, claims[uid].results)
      requires result in claims[uid].results && result.device in node.allocatable
      modifies this`gis, this`migMode, this`made, this`history, this`faults, this`asked
      ensures Valid() && Continues(old(history), history) && Grows(old(View()), View())
      ensures faults >= old(faults) && (r.Err? ==> faults > old(faults))
      ensures r.Ok? ==> DeviceMatches(node, View(), uid, r.value, result)
    {
      hide Extends, IsRun, Hardware, ValidNode;
      match node.allocatable[result.device]
      case FullGpu =>
        return Ok(PreparedDevice(Some(Ref(result)), None, None));
      case DynamicMig(parent, profileId, start, size) =>
        var mig :- CreateMigDevice(uid, result.device, parent, profileId, start, size);
        return Ok(PreparedDevice(None, Some(PreparedMigDevice(mig, Ref(result))), None));
    }

    method PrepareGroup(uid: Uid, results: seq<AllocationResult>) returns (r: Result<PreparedGroup>)
      requires Valid() && View().Started(uid) && View().FreeOfCompleted(uid, claims[uid].results)
      requires forall x :: x in results ==> x in claims[uid].results && x.device in node.allocatable
      modifies this`gis, this`migMode, this`made, this`history, this`faults, this`asked
      ensures Valid() && Continues(old(history), history) && Grows(old(View()), View())
      ensures faults >= old(faults) && (r.Err? ==> faults > old(faults))
      ensures r.Ok? ==> GroupMatches(node, View(), uid, r.value, results)
    {
      hide Extends, IsRun, Hardware, ValidNode, DeviceMatches;
      var group: PreparedGroup := [];
      for i := 0 to |results|
        invariant Valid() && Continues(old(history), history) && faults >= old(faults) && Grows(old(View()), View())
        invariant GroupMatches(node, View(), uid, group, results[..i])
      {
        var result := results[i];
        assert result in results;
        ghost var before := View();
        var prepared :- PrepareResult(uid, result);
        MatchesWhileGrowing(node, before, View(), uid, group, results[..i]);
        assert results[..i + 1] == results[..i] + [result];
        group := group + [prepared];
      }
      assert results[..|results|] == results;
      return Ok(group);
    }

    /** Normalising, validating and applying a configuration: it may fail, and always does for a
        configuration that is none of the known three. */
    method ApplyConfig(config: DeviceConfig) returns (r: Result<()>)
      modifies this`faults
      ensures config == OtherConfig ==> r.Err?
      ensures faults >= old(faults) && (r.Err? ==> faults > old(faults) || config == OtherConfig)
    {
      if config == OtherConfig {
        return Err(BadConfig);
      }
      if * {
        faults := faults + 1;
        return Err(BadConfig);
      }
      return Ok(());
    }

    method PrepareDevices(uid: Uid, claim: ResourceClaim) returns (r: Result<PreparedDevices>)
      requires Valid() && View().Started(uid) && claims[uid].results == claim.results
      requires View().FreeOfCompleted(uid, claim.results)
      modifies this`gis, this`migMode, this`made, this`history, this`faults, this`asked
      ensures Valid() && Continues(old(history), history) && Grows(old(View()), View())
      ensures r.Ok? ==> Accounts(node, View(), uid, claim.results, r.value) && Preparable(decode, node, claim)
      ensures faults >= old(faults) && (r.Err? ==> faults > old(faults) || !Preparable(decode, node, claim))
    {
      hide Extends, IsRun, Hardware, ValidNode, Accounts, IsResultsMap, Preparable, AllKnown, Acceptable, NobodyElseHolds,
        GroupsMatch, IsOrderOf, Resolvable, ConfigsOf;
      PreparableIsResolvable(decode, node, claim);
      var found :- GetConfigResults(claim);
      var (configs, m) := found;
      PreparableIff(decode, node, claim, m);
      var _ :- ApplyConfigs(configs, m);
      GroupsAreKnown(claim, m);
      ghost var order: seq<nat>;
      r, order := WalkGroups(uid, m);
      if r.Ok? {
        ResolvedWalkAccounts(uid, claim, m, order, r.value);
      }
    }

    lemma ResolvedWalkAccounts(
      uid: Uid, claim: ResourceClaim, m: map<nat, seq<AllocationResult>>, order: seq<nat>, devices: PreparedDevices)
      requires Resolvable(decode, node, claim)
      requires IsResultsMap(Fits, ConfigsOf(decode, claim.configs), DeviceKinds(node), DRIVER_NAME, claim.results, m)
      requires IsOrderOf(order, m.Keys) && GroupsMatch(node, View(), uid, devices, m, order)
      ensures Accounts(node, View(), uid, claim.results, devices)
    {
      var all := ConfigsOf(decode, claim.configs);
      assert forall x :: x in claim.results && x.driver == DRIVER_NAME ==> !Rejected(Fits, all, DeviceKinds(node), x);
      hide IsResultsMap, GroupsMatch, Accounts, IsOrderOf;
      WalkAccounts(node, View(), uid, all[2..], claim.results, m, order, devices);
    }

    /** The configurations that count for a claim, and the results each of them governs. */
    method GetConfigResults(claim: ResourceClaim)
      returns (r: Result<(seq<OpaqueDeviceConfig<DeviceConfig>>, map<nat, seq<AllocationResult>>)>)
      ensures r.Ok? <==> Resolvable(decode, node, claim)
      ensures r.Ok? ==>
                && r.value.0 == ConfigsOf(decode, claim.configs)
                && IsResultsMap(Fits, r.value.0, DeviceKinds(node), DRIVER_NAME, claim.results, r.value.1)
    {
      hide IsResultsMap, Acceptable, Rejected;
      var decoded :- GetOpaqueDeviceConfigs(decode, DRIVER_NAME, claim.configs);
      var configs := [OpaqueDeviceConfig([], GpuConfig)] + decoded;
      configs := [OpaqueDeviceConfig([], MigDeviceConfig)] + configs;
      assert configs == ConfigsOf(decode, claim.configs);
      var m :- GetConfigResultsMap(Fits, configs, DeviceKinds(node), DRIVER_NAME, claim.results);
      return Ok((configs, m));
    }

    /** Normalises, validates and applies every configuration that governs some result. */
    method ApplyConfigs(configs: seq<OpaqueDeviceConfig<DeviceConfig>>, m: map<nat, seq<AllocationResult>>)
      returns (r: Result<()>)
      modifies this`faults
      ensures r.Ok? ==> AllKnown(configs, m)
      ensures faults >= old(faults) && (r.Err? ==> faults > old(faults) || !AllKnown(configs, m))
    {
      var keys := m.Keys;
      while keys != {}
        invariant keys <= m.Keys && faults >= old(faults)
        invariant forall j :: j in m && j !in keys && j < |configs| ==> configs[j].config != OtherConfig
      {
        var j :| j in keys;
        keys := keys - {j};
        if j < |configs| {
          var _ :- ApplyConfig(configs[j].config);
        }
      }
      return Ok(());
    }

    /** Prepares group after group, in the order in which the map is walked. */
    method WalkGroups(uid: Uid, m: map<nat, seq<AllocationResult>>) returns (r: Result<PreparedDevices>, ghost order: seq<nat>)
      requires Valid() && View().Started(uid) && View().FreeOfCompleted(uid, claims[uid].results)
      requires forall j, x :: j in m && x in m[j] ==> x in claims[uid].results && x.device in node.allocatable
      modifies this`gis, this`migMode, this`made, this`history, this`faults, this`asked
      ensures Valid() && Continues(old(history), history) && Grows(old(View()), View())
      ensures faults >= old(faults) && (r.Err? ==> faults > old(faults))
      ensures r.Ok? ==> IsOrderOf(order, m.Keys) && GroupsMatch(node, View(), uid, r.value, m, order)
    {
      hide Extends, IsRun, Hardware, ValidNode, GroupMatches, NobodyElseHolds;
      var devices: PreparedDevices := [];
      order := [];
      var keys := m.Keys;
      while keys != {}
        invariant keys <= m.Keys && IsOrderOf(order, m.Keys - keys)
        invariant Valid() && Continues(old(history), history) && faults >= old(faults) && Grows(old(View()), View())
        invariant GroupsMatch(node, View(), uid, devices, m, order)
      {
        var j :| j in keys;
        ghost var before := View();
        var group := PrepareGroup(uid, m[j]);
        if group.Err? {
          return Err(group.error), order;
        }
        GroupsStayMatched(node, before, View(), uid, devices, m, order);
        devices := devices + [group.value];
        order := order + [j];
        keys := keys - {j};
      }
      assert m.Keys - keys == m.Keys;
      return Ok(devices), order;
    }

    lemma GroupsAreKnown(claim: ResourceClaim, m: map<nat, seq<AllocationResult>>)
      requires Resolvable(decode, node, claim)
      requires IsResultsMap(Fits, ConfigsOf(decode, claim.configs), DeviceKinds(node), DRIVER_NAME, claim.results, m)
      ensures forall j, x :: j in m && x in m[j] ==> x in claim.results && x.device in node.allocatable
    {
      var configs := ConfigsOf(decode, claim.configs);
      forall j | j in m ensures forall x :: x in m[j] ==> x in claim.results && x.device in node.allocatable {
        GroupMembers(Fits, configs, DeviceKinds(node), DRIVER_NAME, claim.results, j);
        assert forall x :: x in claim.results && x.driver == DRIVER_NAME ==> !Rejected(Fits, configs, DeviceKinds(node), x);
      }
    }

    method PrepareFromScratch(claim: ResourceClaim) returns (r: Result<seq<DeviceRef>>)
      requires Valid() && Enabled(node, View(), WriteStarted(claim.uid, StartedEntry(claim)))
      modifies this
      ensures Valid() && Continues(old(history), history) && OthersKeep(old(View()), View(), claim.uid)
      ensures r.Ok? ==>
                && claim.uid in claims && claim.uid in cdi && claim.uid !in begun
                && claims == old(claims)[claim.uid := PreparedClaim(PrepareCompleted, claim.results, claims[claim.uid].devices, "", "")]
                && Accounts(node, View(), claim.uid, claim.results, claims[claim.uid].devices)
                && r.value == AllRefs(claims[claim.uid].devices) && DenotesEach(r.value, OfDriver(DRIVER_NAME, claim.results))
                && Preparable(decode, node, claim)
      ensures r.Err? ==> || claims == old(claims)
                         || claims == old(claims)[claim.uid := PreparedClaim(PrepareStarted, claim.results, [], claim.name, claim.namespace_)]
      ensures faults >= old(faults) && (r.Err? ==> faults > old(faults) || !Preparable(decode, node, claim))
    {
      hide Extends, IsRun, Hardware, ValidNode, AllRefs, NameRolledBack, NobodyElseHolds, Accounts, Preparable, DenotesEach;
      var uid := claim.uid;
      var _ :- UpdateStarted(uid, StartedEntry(claim));
      StartedDoesNotHold(old(claims), uid, StartedEntry(claim), claim.results);
      var devices :- PrepareDevices(uid, claim);
      var _ :- Complete(claim, devices);
      AccountsDenote(node, View(), uid, claim.results, devices);
      var refs := GetDevices(devices);
      return Ok(refs);
    }

    /** The CDI file, and then the completed entry. */
    method Complete(claim: ResourceClaim, devices: PreparedDevices) returns (r: Result<()>)
      requires Valid() && View().Started(claim.uid) && claims[claim.uid].results == claim.results
      requires View().FreeOfCompleted(claim.uid, claim.results) && Accounts(node, View(), claim.uid, claim.results, devices)
      modifies this`claims, this`cdi, this`begun, this`history, this`faults
      ensures Valid() && Continues(old(history), history)
      ensures faults >= old(faults) && (r.Err? ==> faults > old(faults))
      ensures cdi - {claim.uid} == old(cdi) - {claim.uid} && begun - {claim.uid} == old(begun) - {claim.uid}
      ensures r.Err? ==> claims == old(claims)
      ensures r.Ok? ==>
                && claims == old(claims)[claim.uid := PreparedClaim(PrepareCompleted, claim.results, devices, "", "")]
                && claim.uid in cdi && claim.uid !in begun
                && Accounts(node, View(), claim.uid, claim.results, devices)
    {
      hide Extends, IsRun, Hardware, ValidNode, NobodyElseHolds, Accounts;
      var uid := claim.uid;
      ghost var prepared := View();
      var _ :- CreateClaimSpecFile(uid);
      AccountsStay(node, prepared, View(), uid, claim.results, devices);
      AccountedMayComplete(node, View(), uid, CompletedEntry(claim, devices));
      r := UpdateCompleted(uid, CompletedEntry(claim, devices));
      AccountsStay(node, prepared, View(), uid, claim.results, devices);
    }

    /** An error that nothing outside has caused has one of three reasons: somebody else has one of the claim's
        devices for himself, an earlier attempt cannot be rolled back since no GPU is found for one of its
        MIG names, or the claim's configurations cannot be read or applied. */
    method Prepare(claim: ResourceClaim) returns (r: Result<seq<DeviceRef>>)
      requires Valid()
      modifies this
      ensures Valid() && Continues(old(history), history) && OthersKeep(old(View()), View(), claim.uid)
      // A completed claim is left exactly as it is, and its devices are reported again.
      ensures old(View()).Completed(claim.uid) ==>
                history == old(history) && (r.Ok? ==> r.value == AllRefs(claims[claim.uid].devices)) && (r.Err? ==> faults > old(faults))
      // A claim that wants a device somebody else has completed with is refused before anything changes.
      ensures !old(View()).Completed(claim.uid) && !old(View()).FreeOfCompleted(claim.uid, claim.results) ==>
                r.Err? && history == old(history)
      ensures r.Ok? && !old(View()).Completed(claim.uid) ==>
                && claim.uid in claims && claim.uid in cdi && claim.uid !in begun
                && claims == old(claims)[claim.uid := PreparedClaim(PrepareCompleted, claim.results, claims[claim.uid].devices, "", "")]
                && Accounts(node, View(), claim.uid, claim.results, claims[claim.uid].devices)
                && r.value == AllRefs(claims[claim.uid].devices) && DenotesEach(r.value, OfDriver(DRIVER_NAME, claim.results))
                && Preparable(decode, node, claim)
      ensures r.Err? ==> || claims == old(claims)
                         || claims == old(claims)[claim.uid := PreparedClaim(PrepareStarted, claim.results, [], claim.name, claim.namespace_)]
      ensures r.Err? ==>
                || faults > old(faults)
                || !old(View()).FreeOfCompleted(claim.uid, claim.results)
                || (old(View()).Started(claim.uid) &&
                    exists name :: name in old(claims)[claim.uid].Names() && Unfindable(node, old(claims), name))
                || !Preparable(decode, node, claim)
    {
      hide Extends, IsRun, Hardware, ValidNode, AllRefs, NameRolledBack, NonAdminDevices, DeviceNames, MigRecords, Accounts,
        Preparable, DenotesEach, Unfindable;
      var uid := claim.uid;
      if * {
        faults := faults + 1;
        return Err(StoreFailure);
      }
      if uid in claims && claims[uid].phase == PrepareCompleted {
        var refs := GetDevices(claims[uid].devices);
        return Ok(refs);
      }
      var _ :- ValidateNoOverlappingPreparedDevices(uid, claim.results);
      if uid in claims && claims[uid].phase == PrepareStarted {
        var _ :- UnpreparePartiallyPreparedClaim(uid);
      }
      r := PrepareFromScratch(claim);
    }

    // -------------------------------------------------------------------- Unprepare

    method UnprepareDevices(uid: Uid, devices: PreparedDevices) returns (r: Result<()>)
      requires Valid() && View().Completed(uid) && claims[uid].devices == devices && uid in begun
      modifies this`gis, this`migMode, this`history, this`faults, this`asked
      ensures Valid() && Continues(old(history), history) && OnlyRemoves(old(View()), View())
      ensures r.Ok? ==> forall rec :: rec in MigRecords(devices) ==> rec.concrete.Key() !in gis
      ensures faults >= old(faults)
      ensures r.Err? ==> faults > old(faults) || exists rec :: rec in MigRecords(devices) && rec.concrete.parentUuid !in node.minors
    {
      hide Extends, IsRun, Hardware, ValidNode;
      for i := 0 to |devices|
        invariant Valid() && Continues(old(history), history) && faults >= old(faults) && OnlyRemoves(old(View()), View())
        invariant forall rec :: rec in MigRecords(devices[..i]) ==> rec.concrete.Key() !in gis
      {
        var group := devices[i];
        assert group in devices;
        for k := 0 to |group|
          invariant Valid() && Continues(old(history), history) && faults >= old(faults) && OnlyRemoves(old(View()), View())
          invariant forall rec :: rec in MigRecords(devices[..i]) ==> rec.concrete.Key() !in gis
          invariant forall l :: 0 <= l < k && group[l].Kind() == MigKind ==> group[l].mig.value.concrete.Key() !in gis
        {
          if group[k].Kind() == MigKind {
            var mig := group[k].mig.value;
            assert group[k] in group && mig in claims[uid].Records();
            var _ :- DeleteMigDevice(mig.concrete, OwnUnprepare(uid));
          }
        }
        assert devices[..i + 1] == devices[..i] + [group];
      }
      assert devices[..|devices|] == devices;
      return Ok(());
    }

    /** `cdiLeft` is what the code merely logs: the CDI file could not be deleted. An error that nothing outside
        has caused is due to the entry. */
    method Unprepare(uid: Uid) returns (r: Result<()>, cdiLeft: bool)
      requires Valid()
      modifies this`claims, this`gis, this`migMode, this`cdi, this`begun, this`history, this`faults, this`asked
      ensures Valid() && Continues(old(history), history) && OthersKeep(old(View()), View(), uid)
      ensures uid !in old(claims) ==> history == old(history)
      ensures uid in old(claims) && old(claims)[uid].phase == Unset ==> r.Err? && history == old(history)
      ensures r.Ok? ==> claims == old(claims) - {uid} && (uid in old(claims) ==> uid !in begun && (uid in cdi ==> cdiLeft))
      ensures r.Ok? && old(View()).Completed(uid) ==> forall key :: key in gis ==> !old(claims)[uid].RecordsKey(key)
      ensures r.Ok? && old(View()).Started(uid) ==>
                forall name :: name in old(claims)[uid].Names() ==> NameRolledBack(node, View(), name)
      ensures r.Err? ==> claims == old(claims)
      ensures cdiLeft ==> faults > old(faults)
      ensures r.Err? ==> || faults > old(faults) || (uid in old(claims) && IsStuck(node, old(claims), uid))
    {
      hide Extends, IsRun, Hardware, ValidNode;
      cdiLeft := false;
      if * {
        faults := faults + 1;
        return Err(StoreFailure), cdiLeft;
      }
      if uid !in claims {
        assert claims - {uid} == claims;
        return Ok(()), cdiLeft;
      }
      ghost var entry := claims[uid];
      match claims[uid].phase {
        case PrepareStarted =>
          var _ :- UnpreparePartiallyPreparedClaim(uid);
        case PrepareCompleted =>
          MarkTeardown(uid);
          var _ :- UnprepareDevices(uid, claims[uid].devices);
        case Unset =>
          return Err(BadState), cdiLeft;
      }
      var deleted := DeleteClaimSpecFile(uid);
      cdiLeft := deleted.Err?;
      ghost var before := View();
      var _ :- DeleteClaimFromCheckpoint(uid);
      if entry.phase == PrepareStarted {
        forall name | name in entry.Names() ensures NameRolledBack(node, View(), name) {
          RolledBackSurvivesRemoval(node, before, uid, name);
        }
      }
      return Ok(()), cdiLeft;
    }

    // ----------------------------------------------------------------- startup sweep

    /** Names listed by completed claims, and no others. */
    method ExpectedDeviceNames() returns (names: set<string>)
      ensures forall name :: name in names <==> View().ListedByCompleted(name)
    {
      names := {};
      var uids := claims.Keys;
      while uids != {}
        invariant uids <= claims.Keys
        invariant forall name :: name in names <==>
                    exists u :: u in claims && u !in uids && View().Completed(u) && name in claims[u].Names()
      {
        var uid :| uid in uids;
        ghost var was, left := names, uids;
        uids := uids - {uid};
        if claims[uid].phase == PrepareCompleted {
          names := names + set r <- claims[uid].results :: r.device;
        }
        forall name ensures name in names <==>
                              exists u :: u in claims && u !in uids && View().Completed(u) && name in claims[u].Names()
        {
          if name in names && name !in was {
            assert uid in claims && View().Completed(uid) && name in claims[uid].Names();
          }
        }
      }
    }

    /** Best effort, and what completed claims list is spared in any case. A sweep that reports success leaves
        no other visible device; and then, if the completed claims were intact, there is no orphan, whatever
        devices there were before. */
    method DestroyUnknownMigDevices() returns (complete: bool)
      requires Valid()
      modifies this`gis, this`migMode, this`history, this`faults, this`asked
      ensures Valid() && Continues(old(history), history) && Sweeps(node, old(View()), View())
      ensures complete ==> forall key :: View().Visible(key) ==> View().ListedByCompleted(node.GiName(key, gis[key]))
      ensures faults >= old(faults) && (!complete ==> faults > old(faults))
      ensures complete && old(Recoverable(node, View())) ==> SoundStart(node, View())
    {
      hide Extends, IsRun, Hardware, ValidNode, Sweeps, ListedIn, Recoverable, SoundStart;
      SweepsNothing(node, View(), View());
      if * {
        faults := faults + 1;
        return false;
      }
      complete := SweepAll();
      if complete && old(Recoverable(node, View())) {
        NowSound(old(View()), View());
      }
    }

    method SweepAll() returns (complete: bool)
      requires Valid()
      modifies this`gis, this`migMode, this`history, this`faults, this`asked
      ensures Valid() && Continues(old(history), history) && Sweeps(node, old(View()), View())
      ensures complete ==> forall key :: View().Visible(key) ==> View().ListedByCompleted(node.GiName(key, gis[key]))
      ensures faults >= old(faults) && (!complete ==> faults > old(faults))
    {
      hide Extends, IsRun, Hardware, ValidNode, Sweeps, ListedIn;
      SweepsNothing(node, View(), View());
      var expected := ExpectedDeviceNames();
      var gpus := node.minors.Keys;
      InstancesAreInMigMode(node, View());
      while gpus != {}
        invariant gpus <= node.minors.Keys
        invariant Valid() && Continues(old(history), history) && faults >= old(faults) && Sweeps(node, old(View()), View())
        invariant forall name :: name in expected <==> View().ListedByCompleted(name)
        invariant forall key :: View().Visible(key) && key.parent !in gpus ==> node.GiName(key, gis[key]) in expected
      {
        var gpu :| gpu in gpus;
        gpus := gpus - {gpu};
        ghost var before := View();
        var swept := SweepGpu(gpu, expected);
        SweepsInTurn(node, old(View()), before, View());
        if swept.Err? {
          return false;
        }
        VisibleStaysVisible(before, View());
      }
      return true;
    }

    lemma VisibleStaysVisible(s: State, t: State)
      requires Sweeps(node, s, t)
      ensures forall key :: t.Visible(key) ==> s.Visible(key) && t.gis[key] == s.gis[key]
    {
    }

    lemma NowSound(s: State, t: State)
      requires ValidNode(node) && Recoverable(node, s) && Hardware(node, t) && Sweeps(node, s, t)
      requires forall key :: t.Visible(key) ==> t.ListedByCompleted(node.GiName(key, t.gis[key]))
      ensures SoundStart(node, t)
    {
      SweptStaysRecoverable(node, s, t);
      SweptIsSound(node, t);
    }

    method SweepGpu(gpu: string, expected: set<string>) returns (r: Result<()>)
      requires gpu in node.minors
      requires Valid() && forall name :: name in expected <==> View().ListedByCompleted(name)
      modifies this`gis, this`migMode, this`history, this`faults, this`asked
      ensures Valid() && Continues(old(history), history) && Sweeps(node, old(View()), View())
      ensures r.Ok? ==> forall key :: View().Visible(key) && key.parent == gpu ==> node.GiName(key, gis[key]) in expected
      ensures faults >= old(faults) && (r.Err? ==> faults > old(faults))
    {
      hide Extends, IsRun, Hardware, ValidNode, Sweeps, ListedIn;
      SweepsNothing(node, View(), View());
      if * {
        faults := faults + 1;
        return Err(DeviceFailure);
      }
      r := SweepMigs(gpu, expected);
      if r.Ok? {
        ghost var swept := View();
        r := MaybeDisableMigMode(gpu);
        SweepsNothing(node, swept, View());
        SweepsInTurn(node, old(View()), swept, View());
      }
    }

    method SweepMigs(gpu: string, expected: set<string>) returns (r: Result<()>)
      requires Valid() && forall name :: name in expected <==> View().ListedByCompleted(name)
      modifies this`gis, this`migMode, this`history, this`faults, this`asked
      ensures Valid() && Continues(old(history), history) && Sweeps(node, old(View()), View())
      ensures r.Ok? ==> forall key :: View().Visible(key) && key.parent == gpu ==> node.GiName(key, gis[key]) in expected
      ensures faults >= old(faults) && (r.Err? ==> faults > old(faults))
    {
      hide Extends, IsRun, Hardware, ValidNode, Sweeps, ListedIn, OnlyRemoves;
      SweepsNothing(node, View(), View());
      var migs := set k | k in gis && k.parent == gpu && gis[k].Visible();
      while migs != {}
        invariant Valid() && Continues(old(history), history) && faults >= old(faults) && Sweeps(node, old(View()), View())
        invariant forall name :: name in expected <==> View().ListedByCompleted(name)
        invariant forall k :: k in migs ==> View().Visible(k)
        invariant forall k :: View().Visible(k) && k.parent == gpu && k !in migs ==> node.GiName(k, gis[k]) in expected
      {
        var key :| key in migs;
        migs := migs - {key};
        ghost var before := View();
        var swept := SweepMig(key, expected);
        SweepsInTurn(node, old(View()), before, View());
        if swept.Err? {
          return swept;
        }
        VisibleStaysVisible(before, View());
      }
      return Ok(());
    }

    method SweepMig(key: GiKey, expected: set<string>) returns (r: Result<()>)
      requires Valid() && View().Visible(key) && forall name :: name in expected <==> View().ListedByCompleted(name)
      modifies this`gis, this`migMode, this`history, this`faults, this`asked
      ensures Valid() && Continues(old(history), history) && Sweeps(node, old(View()), View())
      ensures forall k :: k in old(gis) && k != key ==> k in gis && gis[k] == old(gis)[k]
      ensures r.Ok? && View().Visible(key) ==> node.GiName(key, gis[key]) in expected
      ensures faults >= old(faults) && (r.Err? ==> faults > old(faults))
    {
      InstancesAreInMigMode(node, View());
      hide Extends, IsRun, Hardware, ValidNode, MayTearDown, ListedIn;
      if node.GiName(key, gis[key]) in expected {
        return Ok(());
      }
      var migUuid: string := *;
      var tuple := MigLiveTuple(node.Minor(key.parent), key.giId, gis[key].ci.value, migUuid, key.parent);
      assert tuple.Key() == key;
      UnlistedMayBeSwept(node, View(), key);
      r := DeleteMigDevice(tuple, StartupSweep);
    }
  }
}
