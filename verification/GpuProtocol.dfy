/** The durable state of the GPU kubelet plugin with dynamic MIG, and the small steps in which it changes.

    A step is one write that survives a crash: one checkpoint update, one NVML create or destroy, one
    CDI file. The plugin may die between any two of them, so the states it can leave behind are the
    states along a run. `DeviceState` performs these steps; its guards are the checks that the code
    has made by the time it takes the step. */
module GpuProtocol {
  import opened Basics
  import opened Claims
  import opened MigNames

  const DRIVER_NAME := "gpu.nvidia.com"

  type Uid = string

  // ------------------------------------------------------------------ checkpoint

  datatype DeviceRef = DeviceRef(requests: seq<string>, poolName: string, deviceName: string)

  /** Identity of a created MIG device. */
  datatype MigLiveTuple = MigLiveTuple(parentMinor: nat, giId: nat, ciId: nat, migUuid: string, parentUuid: string) {
    function Key(): GiKey {
      GiKey(parentUuid, giId)
    }
  }

  datatype PreparedMigDevice = PreparedMigDevice(concrete: MigLiveTuple, device: DeviceRef)

  datatype DeviceKind = GpuKind | MigKind | VfioKind | UnknownKind

  /** Three nullable members in Go; `Kind` looks at them in this order. */
  datatype PreparedDevice = PreparedDevice(
    gpu: Option<DeviceRef>, mig: Option<PreparedMigDevice>, vfio: Option<DeviceRef>)
  {
    function Kind(): DeviceKind {
      if gpu.Some? then GpuKind else if mig.Some? then MigKind else if vfio.Some? then VfioKind else UnknownKind
    }

    function Refs(): seq<DeviceRef> {
      match Kind()
      case GpuKind => [gpu.value]
      case MigKind => [mig.value.device]
      case VfioKind => [vfio.value]
      case UnknownKind => []
    }
  }

  type PreparedGroup = seq<PreparedDevice>
  type PreparedDevices = seq<PreparedGroup>

  function GroupRefs(group: PreparedGroup): seq<DeviceRef> {
    if group == [] then [] else GroupRefs(group[..|group| - 1]) + group[|group| - 1].Refs()
  }

  function AllRefs(devices: PreparedDevices): seq<DeviceRef> {
    if devices == [] then [] else AllRefs(devices[..|devices| - 1]) + GroupRefs(devices[|devices| - 1])
  }

  /** The MIG devices a list of prepared devices refers to. */
  function MigRecords(devices: PreparedDevices): set<PreparedMigDevice> {
    set group <- devices, d <- group | d.Kind() == MigKind :: d.mig.value
  }

  datatype Phase = Unset | PrepareStarted | PrepareCompleted

  datatype PreparedClaim = PreparedClaim(
    phase: Phase, results: seq<AllocationResult>, devices: PreparedDevices, name: string, namespace_: string)
  {
    function Names(): set<string> {
      DeviceNames(results)
    }

    function NonAdmin(): set<string> {
      NonAdminDevices(DRIVER_NAME, results)
    }

    function Records(): set<PreparedMigDevice> {
      MigRecords(devices)
    }

    predicate RecordsKey(key: GiKey) {
      exists rec :: rec in Records() && rec.concrete.Key() == key
    }
  }

  // ------------------------------------------------------------------------ node

  /** An announced device: a full GPU, or a MIG configuration that may be created on demand. */
  datatype Allocatable = FullGpu | DynamicMig(parent: string, profileId: nat, start: nat, size: nat)

  /** What stays fixed while the plugin runs. `parentOf` is the lookup from a parsed name to a GPU. */
  datatype Node = Node(
    minors: map<string, nat>, profileNames: map<nat, string>, allocatable: map<string, Allocatable>,
    parentOf: MigSpecTuple -> Option<string>)
  {
    function ProfileName(profileId: nat): string {
      if profileId in profileNames then profileNames[profileId] else ""
    }

    function Minor(parent: string): nat {
      if parent in minors then minors[parent] else 0
    }

    function NameOf(parent: string, profileId: nat, start: nat): string {
      ToCanonicalName(MigSpecTuple(Minor(parent), "", profileId, start), ProfileName(profileId))
    }

    function GiName(key: GiKey, gi: Gi): string {
      NameOf(key.parent, gi.profileId, gi.start)
    }

    predicate Creates(device: string, key: GiKey, gi: Gi) {
      device in allocatable && allocatable[device] == DynamicMig(key.parent, gi.profileId, gi.start, gi.size)
    }
  }

  // ----------------------------------------------------------------------- state

  datatype GiKey = GiKey(parent: string, giId: nat)

  /** A GPU instance. It is a visible MIG device once it holds a compute instance. */
  datatype Gi = Gi(profileId: nat, start: nat, size: nat, ci: Option<nat>) {
    predicate Visible() {
      ci.Some?
    }
  }

  /** `begun` (claims whose teardown has begun) and `made` (who created a GPU instance) are bookkeeping
      that the plugin itself does not have. */
  datatype State = State(
    claims: map<Uid, PreparedClaim>, gis: map<GiKey, Gi>, migMode: set<string>, cdi: set<Uid>,
    begun: set<Uid>, made: map<GiKey, Uid>)
  {
    predicate Started(uid: Uid) {
      uid in claims && claims[uid].phase == PrepareStarted
    }

    predicate Completed(uid: Uid) {
      uid in claims && claims[uid].phase == PrepareCompleted
    }

    predicate ListedByCompleted(name: string) {
      ListedIn(claims, name)
    }

    /** No completed claim but `uid` itself holds one of these devices without admin access. */
    predicate FreeOfCompleted(uid: Uid, results: seq<AllocationResult>) {
      NobodyElseHolds(claims, uid, results)
    }

    predicate Visible(key: GiKey) {
      key in gis && gis[key].Visible()
    }

    predicate PlacementFree(parent: string, start: nat, size: nat) {
      forall k :: k in gis && k.parent == parent ==> gis[k].start + gis[k].size <= start || start + size <= gis[k].start
    }

    /** No visible device answers to this configuration on this GPU. */
    predicate NoneVisible(parent: string, ms: MigSpecTuple) {
      forall k :: k in gis && k.parent == parent && gis[k].Visible() ==> !Answers(gis[k], ms)
    }
  }

  predicate ListedIn(claims: map<Uid, PreparedClaim>, name: string) {
    exists uid :: uid in claims && claims[uid].phase == PrepareCompleted && name in claims[uid].Names()
  }

  predicate NobodyElseHolds(claims: map<Uid, PreparedClaim>, uid: Uid, results: seq<AllocationResult>) {
    forall u :: u in claims && u != uid && claims[u].phase == PrepareCompleted ==>
      claims[u].NonAdmin() !! NonAdminDevices(DRIVER_NAME, results)
  }

  /** Two results want one device of this driver, neither with admin access. */
  predicate Clash(driverName: string, a: AllocationResult, b: AllocationResult) {
    && a.driver == driverName && b.driver == driverName && a.device == b.device
    && a.adminAccess != Some(true) && b.adminAccess != Some(true)
  }

  lemma DisjointMeansNoClash(driverName: string, a: seq<AllocationResult>, b: seq<AllocationResult>)
    ensures NonAdminDevices(driverName, a) !! NonAdminDevices(driverName, b) <==>
            forall x, y :: x in a && y in b ==> !Clash(driverName, x, y)
  {
    forall x, y | x in a && y in b && Clash(driverName, x, y)
      ensures x.device in NonAdminDevices(driverName, a) && x.device in NonAdminDevices(driverName, b)
    {
      assert IsNonAdmin(driverName, x) && IsNonAdmin(driverName, y);
    }
  }

  predicate Answers(gi: Gi, ms: MigSpecTuple) {
    gi.profileId == ms.profileId && gi.start == ms.placementStart
  }

  /** What rolling a device name back has achieved: the name is not a MIG name, or a completed claim
      lists it, or the lookup found its GPU and no visible device answers to it. */
  predicate NameRolledBack(node: Node, s: State, name: string) {
    var ms := NewMigSpecTupleFromCanonicalName(name);
    || ms.Err?
    || s.ListedByCompleted(name)
    || (node.parentOf(ms.value).Some? && s.NoneVisible(node.parentOf(ms.value).value, ms.value))
  }

  predicate RolledBack(node: Node, s: State, uid: Uid)
    requires uid in s.claims
  {
    forall name :: name in s.claims[uid].Names() ==> NameRolledBack(node, s, name)
  }

  // ----------------------------------------------------------------------- steps

  /** Why a MIG device is torn down. */
  datatype Cause = Rollback(uid: Uid, device: string) | OwnUnprepare(uid: Uid) | StartupSweep

  datatype Label =
    | WriteStarted(uid: Uid, claim: PreparedClaim)
    | EnableMig(parent: string)
    | CreateGi(uid: Uid, device: string, key: GiKey, gi: Gi)
    | CreateCi(uid: Uid, device: string, key: GiKey, ciId: nat)
    | WriteCdi(uid: Uid)
    | WriteCompleted(uid: Uid, claim: PreparedClaim)
    | BeginUnprepare(uid: Uid)
    | DestroyCi(cause: Cause, key: GiKey)
    | DestroyGi(cause: Cause, key: GiKey)
    | DisableMig(parent: string)
    | DeleteCdi(uid: Uid)
    | RemoveEntry(uid: Uid)

  predicate MayTearDown(node: Node, s: State, cause: Cause, key: GiKey)
    requires key in s.gis
  {
    match cause
    case Rollback(uid, device) =>
      && s.Started(uid) && device in s.claims[uid].Names() && !s.ListedByCompleted(device)
      && (var ms := NewMigSpecTupleFromCanonicalName(device);
          && ms.Ok?
          && node.parentOf(ms.value) == Some(key.parent)
          && Answers(s.gis[key], ms.value))
    case OwnUnprepare(uid) =>
      s.Completed(uid) && uid in s.begun && s.claims[uid].RecordsKey(key)
    case StartupSweep =>
      !s.ListedByCompleted(node.GiName(key, s.gis[key]))
  }

  /** A record that points at a device this claim made, live and of the configuration its name stands for. */
  predicate RecordMade(node: Node, s: State, uid: Uid, rec: PreparedMigDevice) {
    var key := rec.concrete.Key();
    && key in s.gis && s.gis[key].ci == Some(rec.concrete.ciId)
    && node.Creates(rec.device.deviceName, key, s.gis[key])
    && key in s.made && s.made[key] == uid
  }

  predicate MayComplete(node: Node, s: State, uid: Uid, claim: PreparedClaim) {
    && s.Started(uid) && claim.phase == PrepareCompleted && claim.results == s.claims[uid].results
    && s.FreeOfCompleted(uid, claim.results)
    && (forall rec :: rec in claim.Records() ==>
          rec.device.deviceName in claim.Names() && RecordMade(node, s, uid, rec))
    && (forall r :: r in claim.results && r.driver == DRIVER_NAME &&
                    r.device in node.allocatable && node.allocatable[r.device].DynamicMig? ==>
          exists rec :: rec in claim.Records() && rec.device.deviceName == r.device)
  }

  predicate Enabled(node: Node, s: State, l: Label) {
    match l
    case WriteStarted(uid, claim) =>
      && claim.phase == PrepareStarted && claim.devices == []
      && s.FreeOfCompleted(uid, claim.results)
      && (uid in s.claims ==> !s.Completed(uid) && (s.Started(uid) ==> RolledBack(node, s, uid)))
    case EnableMig(parent) =>
      parent in node.minors
    case CreateGi(uid, device, key, gi) =>
      && s.Started(uid) && device in s.claims[uid].Names() && node.Creates(device, key, gi)
      && s.FreeOfCompleted(uid, s.claims[uid].results)
      && key !in s.gis && gi.ci.None? && key.parent in node.minors && key.parent in s.migMode
      && s.PlacementFree(key.parent, gi.start, gi.size)
    case CreateCi(uid, device, key, ciId) =>
      && s.Started(uid) && device in s.claims[uid].Names()
      && s.FreeOfCompleted(uid, s.claims[uid].results)
      && key in s.gis && s.gis[key].ci.None? && node.Creates(device, key, s.gis[key])
    case WriteCdi(uid) =>
      s.Started(uid)
    case WriteCompleted(uid, claim) =>
      MayComplete(node, s, uid, claim)
    case BeginUnprepare(uid) =>
      s.Completed(uid)
    case DestroyCi(cause, key) =>
      key in s.gis && s.gis[key].ci.Some? && MayTearDown(node, s, cause, key)
    case DestroyGi(cause, key) =>
      key in s.gis && s.gis[key].ci.None? && MayTearDown(node, s, cause, key)
    case DisableMig(parent) =>
      forall k :: k in s.gis ==> k.parent != parent
    case DeleteCdi(uid) =>
      uid in s.claims
    case RemoveEntry(uid) =>
      && uid in s.claims && (s.Started(uid) || s.Completed(uid))
      && (s.Started(uid) ==> RolledBack(node, s, uid))
      && (s.Completed(uid) ==> forall key :: key in s.gis ==> !s.claims[uid].RecordsKey(key))
  }

  function Apply(s: State, l: Label): State {
    match l
    case WriteStarted(uid, claim) => s.(claims := s.claims[uid := claim], begun := s.begun - {uid})
    case EnableMig(parent) => s.(migMode := s.migMode + {parent})
    case CreateGi(uid, _, key, gi) => s.(gis := s.gis[key := gi], made := s.made[key := uid])
    case CreateCi(_, _, key, ciId) => if key in s.gis then s.(gis := s.gis[key := s.gis[key].(ci := Some(ciId))]) else s
    case WriteCdi(uid) => s.(cdi := s.cdi + {uid})
    case WriteCompleted(uid, claim) => s.(claims := s.claims[uid := claim], begun := s.begun - {uid})
    case BeginUnprepare(uid) => s.(begun := s.begun + {uid})
    case DestroyCi(_, key) => if key in s.gis then s.(gis := s.gis[key := s.gis[key].(ci := None)]) else s
    case DestroyGi(_, key) => s.(gis := s.gis - {key})
    case DisableMig(parent) => s.(migMode := s.migMode - {parent})
    case DeleteCdi(uid) => s.(cdi := s.cdi - {uid})
    case RemoveEntry(uid) => s.(claims := s.claims - {uid}, begun := s.begun - {uid})
  }

  // ------------------------------------------------------------------------ runs

  /** A run, latest state first. Every prefix of a run is a run, which is what makes a crash harmless to
      state: whatever holds at the end of every run holds wherever the plugin died. */
  datatype Run = Begin(s: State) | Then(before: Run, step: Label, s: State)

  predicate IsRun(node: Node, r: Run) {
    match r
    case Begin(_) => true
    case Then(before, step, s) => IsRun(node, before) && Enabled(node, before.s, step) && s == Apply(before.s, step)
  }

  function First(r: Run): State {
    match r
    case Begin(s) => s
    case Then(before, _, _) => First(before)
  }

  /** `r` continues `prefix`. */
  predicate Extends(prefix: Run, r: Run) {
    r == prefix || (r.Then? && Extends(prefix, r.before))
  }

  lemma {:induction false} ExtendsIsTransitive(a: Run, b: Run, c: Run)
    requires Extends(a, b) && Extends(b, c)
    ensures Extends(a, c)
  {
    if c != b {
      ExtendsIsTransitive(a, b, c.before);
    }
  }
}
