/** What every run of the GPU plugin keeps, crash or no crash. */
module GpuInvariants {
  import opened Basics
  import opened Claims
  import opened MigNames
  import opened GpuProtocol

  // ----------------------------------------------------------------- environment

  /** How the plugin announces devices: one name per configuration, built from the parent's minor, the
      profile and the placement; GPUs have distinct minors; nothing else is named like a MIG device. */
  ghost predicate ValidNode(node: Node) {
    && (forall p, q :: p in node.minors && q in node.minors && node.minors[p] == node.minors[q] ==> p == q)
    && (forall p :: p in node.minors ==> node.minors[p] <= MAX_INT)
    && (forall n :: n in node.allocatable ==> ValidAnnouncement(node, n, node.allocatable[n]))
  }

  ghost predicate ValidAnnouncement(node: Node, name: string, a: Allocatable) {
    match a
    case FullGpu => NewMigSpecTupleFromCanonicalName(name).Err?
    case DynamicMig(parent, profileId, start, size) =>
      && parent in node.minors && profileId <= MAX_INT && start <= MAX_INT && size >= 1
      && ProfilePart(node.ProfileName(profileId)) != ""
      && name == node.NameOf(parent, profileId, start)
  }

  function SpecOf(node: Node, a: Allocatable): MigSpecTuple
    requires a.DynamicMig?
  {
    MigSpecTuple(node.Minor(a.parent), "", a.profileId, a.start)
  }

  /** The lookup leads every announced MIG name to its own GPU, or nowhere. */
  ghost predicate LedHome(node: Node) {
    forall name :: name in node.allocatable && node.allocatable[name].DynamicMig? ==>
      !LedAstray(node, node.allocatable[name])
  }

  predicate LedAstray(node: Node, a: Allocatable)
    requires a.DynamicMig?
  {
    node.parentOf(SpecOf(node, a)).Some? && node.parentOf(SpecOf(node, a)) != Some(a.parent)
  }

  /** Whatever is named like a MIG device in an allocation is one that this driver announced. */
  ghost predicate Published(node: Node, results: seq<AllocationResult>) {
    forall r :: r in results && NewMigSpecTupleFromCanonicalName(r.device).Ok? ==>
      r.driver == DRIVER_NAME && r.device in node.allocatable
  }

  ghost predicate WithoutAdminMig(results: seq<AllocationResult>) {
    forall r :: r in results && NewMigSpecTupleFromCanonicalName(r.device).Ok? ==> r.adminAccess != Some(true)
  }

  /** Claims carry published names, and NVML does not reissue a GPU-instance id that a checkpointed
      claim still records. */
  ghost predicate Orderly(node: Node, s: State, l: Label) {
    match l
    case WriteStarted(_, claim) => Published(node, claim.results)
    case CreateGi(_, _, key, _) => forall u :: u in s.claims ==> !s.claims[u].RecordsKey(key)
    case _ => true
  }

  ghost predicate OrderlyRun(node: Node, r: Run) {
    match r
    case Begin(_) => true
    case Then(before, step, _) => OrderlyRun(node, before) && Orderly(node, before.s, step)
  }

  ghost predicate NoAdminRun(r: Run) {
    match r
    case Begin(_) => true
    case Then(before, step, _) => NoAdminRun(before) && (step.WriteStarted? ==> WithoutAdminMig(step.claim.results))
  }

  /** GPU instances take up room, and no two of them take up the same room. */
  ghost predicate PlacementsApart(s: State) {
    && (forall k :: k in s.gis ==> s.gis[k].size >= 1)
    && (forall k, m :: k in s.gis && m in s.gis && k != m && k.parent == m.parent ==>
          s.gis[k].start + s.gis[k].size <= s.gis[m].start || s.gis[m].start + s.gis[m].size <= s.gis[k].start)
  }

  /** A first installation: nothing checkpointed, and no MIG device visible (which is what a successful
      startup sweep leaves behind an empty checkpoint). */
  ghost predicate FirstInstallation(s: State) {
    s.claims == map[] && PlacementsApart(s) && forall key :: key in s.gis ==> !s.gis[key].Visible()
  }

  // ---------------------------------------------------------------------- naming

  lemma AnnouncedNameIsRead(node: Node, name: string)
    requires ValidNode(node) && name in node.allocatable && node.allocatable[name].DynamicMig?
    ensures var a := node.allocatable[name];
            NewMigSpecTupleFromCanonicalName(name) == Ok(MigSpecTuple(node.Minor(a.parent), "", a.profileId, a.start))
  {
    var a := node.allocatable[name];
    assert ValidAnnouncement(node, name, a);
    CanonicalNameRoundTrip(MigSpecTuple(node.Minor(a.parent), "", a.profileId, a.start), node.ProfileName(a.profileId));
  }

  /** Two announcements of one name agree on GPU, profile and placement. */
  lemma CreatedFromName(node: Node, name: string, key: GiKey, gi: Gi)
    requires ValidNode(node) && node.Creates(name, key, gi)
    ensures node.GiName(key, gi) == name && key.parent in node.minors && gi.size >= 1
    ensures NewMigSpecTupleFromCanonicalName(name) ==
            Ok(MigSpecTuple(node.Minor(key.parent), "", gi.profileId, gi.start))
  {
    AnnouncedNameIsRead(node, name);
    assert ValidAnnouncement(node, name, node.allocatable[name]);
  }

  /** The lookup never leads from an announced name to a GPU on which a different announcement has the same
      profile and placement. */
  ghost predicate NeverMisled(node: Node) {
    forall held, wanted :: held in node.allocatable && wanted in node.allocatable && held != wanted ==>
      !Misled(node, node.allocatable[held], node.allocatable[wanted])
  }

  predicate Misled(node: Node, held: Allocatable, wanted: Allocatable) {
    && held.DynamicMig? && wanted.DynamicMig?
    && held.profileId == wanted.profileId && held.start == wanted.start
    && node.parentOf(SpecOf(node, wanted)) == Some(held.parent)
  }

  lemma LedHomeIsNeverMisled(node: Node)
    requires ValidNode(node) && LedHome(node)
    ensures NeverMisled(node)
  {
    forall held, wanted | held in node.allocatable && wanted in node.allocatable && held != wanted
      ensures !Misled(node, node.allocatable[held], node.allocatable[wanted])
    {
      assert ValidAnnouncement(node, held, node.allocatable[held]);
      assert ValidAnnouncement(node, wanted, node.allocatable[wanted]);
      assert node.allocatable[wanted].DynamicMig? ==> !LedAstray(node, node.allocatable[wanted]);
    }
  }

  /** A rollback finds no device that a completed claim holds under another name. */
  lemma RollbackFindsNoHeldDevice(node: Node, s: State, uid: Uid, device: string, key: GiKey, held: string)
    requires ValidNode(node) && NeverMisled(node)
    requires key in s.gis && MayTearDown(node, s, Rollback(uid, device), key)
    requires Published(node, s.claims[uid].results)
    requires node.Creates(held, key, s.gis[key])
    ensures held == device
  {
    var r :| r in s.claims[uid].results && r.device == device;
    assert device in node.allocatable && ValidAnnouncement(node, device, node.allocatable[device]);
    AnnouncedNameIsRead(node, device);
    assert held != device ==> !Misled(node, node.allocatable[held], node.allocatable[device]);
  }

  // ------------------------------------------- devices of completed claims stay live

  ghost predicate Live(node: Node, s: State, rec: PreparedMigDevice) {
    var key := rec.concrete.Key();
    key in s.gis && s.gis[key].ci == Some(rec.concrete.ciId) && node.Creates(rec.device.deviceName, key, s.gis[key])
  }

  ghost predicate RecordOk(node: Node, s: State, uid: Uid, rec: PreparedMigDevice)
    requires uid in s.claims
  {
    var key := rec.concrete.Key();
    && rec.device.deviceName in s.claims[uid].Names()
    && (uid !in s.begun ==> Live(node, s, rec))
    && (key in s.gis ==> key in s.made && s.made[key] == uid)
  }

  ghost predicate LiveInv(node: Node, s: State) {
    && (forall uid :: uid in s.claims ==> Published(node, s.claims[uid].results))
    && (forall uid, rec :: uid in s.claims && s.Completed(uid) && rec in s.claims[uid].Records() ==>
          RecordOk(node, s, uid, rec))
  }

  lemma RecordedNameIsListed(node: Node, s: State, uid: Uid, rec: PreparedMigDevice)
    requires ValidNode(node) && uid in s.claims && s.Completed(uid) && RecordOk(node, s, uid, rec) && uid !in s.begun
    ensures s.ListedByCompleted(rec.device.deviceName)
    ensures node.GiName(rec.concrete.Key(), s.gis[rec.concrete.Key()]) == rec.device.deviceName
  {
    CreatedFromName(node, rec.device.deviceName, rec.concrete.Key(), s.gis[rec.concrete.Key()]);
  }

  lemma TearDownSparesLive(node: Node, s: State, cause: Cause, key: GiKey, uid: Uid, rec: PreparedMigDevice)
    requires ValidNode(node) && NeverMisled(node) && LiveInv(node, s)
    requires key in s.gis && MayTearDown(node, s, cause, key)
    requires uid in s.claims && s.Completed(uid) && rec in s.claims[uid].Records() && uid !in s.begun
    ensures rec.concrete.Key() != key
  {
    assert RecordOk(node, s, uid, rec);
    RecordedNameIsListed(node, s, uid, rec);
    hide ListedIn;
    match cause
    case Rollback(u, device) =>
      if rec.concrete.Key() == key {
        RollbackFindsNoHeldDevice(node, s, u, device, key, rec.device.deviceName);
      }
    case OwnUnprepare(u) =>
      var own :| own in s.claims[u].Records() && own.concrete.Key() == key;
      assert RecordOk(node, s, u, own);
    case StartupSweep =>
  }

  lemma RecordStaysOk(node: Node, s: State, l: Label, uid: Uid, rec: PreparedMigDevice)
    requires ValidNode(node) && NeverMisled(node) && LiveInv(node, s)
    requires Enabled(node, s, l) && Orderly(node, s, l)
    requires var t := Apply(s, l); uid in t.claims && t.Completed(uid) && rec in t.claims[uid].Records()
    ensures RecordOk(node, Apply(s, l), uid, rec)
  {
    if l.WriteCompleted? && l.uid == uid {
      assert RecordMade(node, s, uid, rec);
    } else {
      assert s.Completed(uid) && rec in s.claims[uid].Records();
      assert RecordOk(node, s, uid, rec);
      match l
      case CreateGi(_, _, key, _) =>
        assert !s.claims[uid].RecordsKey(key);
        assert rec.concrete.Key() != key;
      case DestroyCi(cause, key) =>
        if uid !in s.begun {
          TearDownSparesLive(node, s, cause, key, uid, rec);
        }
      case DestroyGi(cause, key) =>
        if uid !in s.begun {
          TearDownSparesLive(node, s, cause, key, uid, rec);
        }
      case _ =>
    }
  }

  lemma LiveInvStep(node: Node, s: State, l: Label)
    requires ValidNode(node) && NeverMisled(node) && LiveInv(node, s)
    requires Enabled(node, s, l) && Orderly(node, s, l)
    ensures LiveInv(node, Apply(s, l))
  {
    var t := Apply(s, l);
    forall uid, rec | uid in t.claims && t.Completed(uid) && rec in t.claims[uid].Records()
      ensures RecordOk(node, t, uid, rec)
    {
      RecordStaysOk(node, s, l, uid, rec);
    }
  }

  lemma {:induction false} LiveInvThroughout(node: Node, r: Run)
    requires ValidNode(node) && NeverMisled(node)
    requires IsRun(node, r) && OrderlyRun(node, r) && LiveInv(node, First(r))
    ensures LiveInv(node, r.s)
  {
    if r.Then? {
      LiveInvThroughout(node, r.before);
      LiveInvStep(node, r.before.s, r.step);
    }
  }

  /** Wherever the plugin stopped, every MIG device recorded by a completed claim whose own teardown has
      not begun exists, with the compute instance on record and the configuration of its name. */
  lemma CompletedDevicesStayLive(node: Node, r: Run, uid: Uid, rec: PreparedMigDevice)
    requires ValidNode(node) && NeverMisled(node)
    requires IsRun(node, r) && OrderlyRun(node, r) && LiveInv(node, First(r))
    requires r.s.Completed(uid) && uid !in r.s.begun && rec in r.s.claims[uid].Records()
    ensures Live(node, r.s, rec)
    ensures node.GiName(rec.concrete.Key(), r.s.gis[rec.concrete.Key()]) == rec.device.deviceName
  {
    LiveInvThroughout(node, r);
    assert RecordOk(node, r.s, uid, rec);
    CreatedFromName(node, rec.device.deviceName, rec.concrete.Key(), r.s.gis[rec.concrete.Key()]);
  }

  // --------------------------------------------------- exclusive use of devices

  ghost predicate DisjointInv(s: State) {
    forall u, v :: u in s.claims && v in s.claims && u != v && s.Completed(u) && s.Completed(v) ==>
      s.claims[u].NonAdmin() !! s.claims[v].NonAdmin()
  }

  /** Two completed claims never share a device that neither requested with admin access; this needs no
      assumption about names, lookups or NVML. */
  lemma {:induction false} CompletedClaimsAreDisjoint(node: Node, r: Run)
    requires IsRun(node, r) && DisjointInv(First(r))
    ensures DisjointInv(r.s)
  {
    if r.Then? {
      CompletedClaimsAreDisjoint(node, r.before);
      DisjointInvStep(node, r.before.s, r.step);
    }
  }

  lemma DisjointInvStep(node: Node, s: State, l: Label)
    requires Enabled(node, s, l) && DisjointInv(s)
    ensures DisjointInv(Apply(s, l))
  {
    var t := Apply(s, l);
    forall u, v | u in t.claims && v in t.claims && u != v && t.Completed(u) && t.Completed(v)
      ensures t.claims[u].NonAdmin() !! t.claims[v].NonAdmin()
    {
      if l.WriteCompleted? {
        assert s.FreeOfCompleted(l.uid, l.claim.results);
        assert l.uid == u || (s.Completed(u) && s.claims[u] == t.claims[u]);
        assert l.uid == v || (s.Completed(v) && s.claims[v] == t.claims[v]);
      }
    }
  }
}
