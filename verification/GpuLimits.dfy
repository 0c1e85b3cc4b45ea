/** Where the guarantees of the GPU plugin end: runs that break them once an assumption is dropped, and
    the exact condition for the step that goes wrong. */
module GpuLimits {
  import opened Basics
  import opened Claims
  import opened MigNames
  import opened GpuProtocol
  import opened GpuInvariants
  import opened GpuOrphans

  function Extend(r: Run, l: Label): Run {
    Then(r, l, Apply(r.s, l))
  }

  const EMPTY := State(map[], map[], {}, {}, {}, map[])

  function Request(device: string, admin: bool): seq<AllocationResult> {
    [AllocationResult("request", DRIVER_NAME, "pool", device, if admin then Some(true) else None)]
  }

  function StartedClaim(device: string, admin: bool): PreparedClaim {
    PreparedClaim(PrepareStarted, Request(device, admin), [], "name", "namespace")
  }

  function MigRecord(device: string, key: GiKey): PreparedMigDevice {
    PreparedMigDevice(MigLiveTuple(0, key.giId, 0, "", key.parent), DeviceRef([], "pool", device))
  }

  function CompletedClaim(device: string, admin: bool, key: GiKey): PreparedClaim {
    PreparedClaim(PrepareCompleted, Request(device, admin),
                  [[PreparedDevice(None, Some(MigRecord(device, key)), None)]], "", "")
  }

  lemma CompletedClaimShape(device: string, admin: bool, key: GiKey)
    ensures CompletedClaim(device, admin, key).Records() == {MigRecord(device, key)}
    ensures CompletedClaim(device, admin, key).Names() == {device}
    ensures StartedClaim(device, admin).Names() == {device}
    ensures CompletedClaim(device, admin, key).NonAdmin() == if admin then {} else {device}
    ensures StartedClaim(device, admin).NonAdmin() == if admin then {} else {device}
    ensures forall k :: CompletedClaim(device, admin, key).RecordsKey(k) <==> k == key
    ensures forall k :: !StartedClaim(device, admin).RecordsKey(k)
  {
    var c := CompletedClaim(device, admin, key);
    var d := PreparedDevice(None, Some(MigRecord(device, key)), None);
    assert d in c.devices[0] && c.devices[0] in c.devices && d.Kind() == MigKind;
    assert MigRecord(device, key) in c.Records();
    assert Request(device, admin)[0] in Request(device, admin);
  }

  function GiOf(node: Node, device: string): Gi
    requires device in node.allocatable && node.allocatable[device].DynamicMig?
  {
    var a := node.allocatable[device];
    Gi(a.profileId, a.start, a.size, None)
  }

  function KeyOf(node: Node, device: string, giId: nat): GiKey
    requires device in node.allocatable && node.allocatable[device].DynamicMig?
  {
    GiKey(node.allocatable[device].parent, giId)
  }

  lemma ExtendRun(node: Node, r: Run, l: Label) returns (r': Run)
    requires IsRun(node, r) && Enabled(node, r.s, l)
    ensures r' == Extend(r, l) && IsRun(node, r') && First(r') == First(r)
    ensures OrderlyRun(node, r) && Orderly(node, r.s, l) ==> OrderlyRun(node, r')
    ensures NoAdminRun(r) && (l.WriteStarted? ==> WithoutAdminMig(l.claim.results)) ==> NoAdminRun(r')
  {
    r' := Extend(r, l);
  }

  /** Claim `uid` is checkpointed as started, and its GPU is switched to MIG mode. */
  lemma Admit(node: Node, r: Run, uid: Uid, device: string, admin: bool) returns (r': Run)
    requires ValidNode(node) && IsRun(node, r) && device in node.allocatable && node.allocatable[device].DynamicMig?
    requires uid !in r.s.claims && r.s.FreeOfCompleted(uid, Request(device, admin))
    ensures IsRun(node, r') && First(r') == First(r) && (OrderlyRun(node, r) ==> OrderlyRun(node, r'))
    ensures NoAdminRun(r) && !admin ==> NoAdminRun(r')
    ensures r'.s == r.s.(claims := r.s.claims[uid := StartedClaim(device, admin)], begun := r.s.begun - {uid},
                         migMode := r.s.migMode + {node.allocatable[device].parent})
  {
    assert ValidAnnouncement(node, device, node.allocatable[device]);
    assert Published(node, Request(device, admin));
    r' := ExtendRun(node, r, WriteStarted(uid, StartedClaim(device, admin)));
    r' := ExtendRun(node, r', EnableMig(node.allocatable[device].parent));
  }

  /** A started claim creates its device, in a state without GPU instances. */
  lemma Materialise(node: Node, r: Run, uid: Uid, device: string, admin: bool, giId: nat) returns (r': Run)
    requires ValidNode(node) && IsRun(node, r) && device in node.allocatable && node.allocatable[device].DynamicMig?
    requires uid in r.s.claims && r.s.claims[uid] == StartedClaim(device, admin) && r.s.gis == map[]
    requires r.s.FreeOfCompleted(uid, Request(device, admin)) && node.allocatable[device].parent in r.s.migMode
    ensures IsRun(node, r') && First(r') == First(r) && (NoAdminRun(r) ==> NoAdminRun(r'))
    ensures var key := KeyOf(node, device, giId);
            && r'.s == r.s.(gis := map[key := GiOf(node, device).(ci := Some(0))], made := r.s.made[key := uid])
            && (OrderlyRun(node, r) && (forall u :: u in r.s.claims ==> !r.s.claims[u].RecordsKey(key)) ==>
                  OrderlyRun(node, r'))
  {
    hide ValidNode, IsRun, OrderlyRun, NoAdminRun, NobodyElseHolds;
    var key, gi := KeyOf(node, device, giId), GiOf(node, device);
    CompletedClaimShape(device, admin, key);
    r' := CreateFirstGi(node, r, uid, device, key);
    r' := ExtendRun(node, r', CreateCi(uid, device, key, 0));
    assert r'.s.gis == map[key := gi.(ci := Some(0))];
  }

  lemma CreateFirstGi(node: Node, r: Run, uid: Uid, device: string, key: GiKey) returns (r': Run)
    requires ValidNode(node) && IsRun(node, r) && device in node.allocatable && node.allocatable[device].DynamicMig?
    requires r.s.Started(uid) && device in r.s.claims[uid].Names() && r.s.FreeOfCompleted(uid, r.s.claims[uid].results)
    requires r.s.gis == map[] && key.parent == node.allocatable[device].parent && key.parent in r.s.migMode
    ensures IsRun(node, r') && First(r') == First(r) && (NoAdminRun(r) ==> NoAdminRun(r'))
    ensures r'.s == r.s.(gis := map[key := GiOf(node, device)], made := r.s.made[key := uid])
    ensures OrderlyRun(node, r) && (forall u :: u in r.s.claims ==> !r.s.claims[u].RecordsKey(key)) ==> OrderlyRun(node, r')
  {
    assert ValidAnnouncement(node, device, node.allocatable[device]);
    hide ValidNode, IsRun, OrderlyRun, NoAdminRun, NobodyElseHolds;
    r' := ExtendRun(node, r, CreateGi(uid, device, key, GiOf(node, device)));
    assert r'.s.gis == map[key := GiOf(node, device)];
  }

  lemma PrepareUpToDevice(node: Node, r: Run, uid: Uid, device: string, admin: bool, giId: nat) returns (r': Run)
    requires ValidNode(node) && IsRun(node, r) && device in node.allocatable && node.allocatable[device].DynamicMig?
    requires uid !in r.s.claims && r.s.gis == map[] && r.s.FreeOfCompleted(uid, Request(device, admin))
    ensures IsRun(node, r') && First(r') == First(r) && (NoAdminRun(r) && !admin ==> NoAdminRun(r'))
    ensures var key := KeyOf(node, device, giId);
            && r'.s == r.s.(claims := r.s.claims[uid := StartedClaim(device, admin)],
                            gis := map[key := GiOf(node, device).(ci := Some(0))],
                            migMode := r.s.migMode + {key.parent}, begun := r.s.begun - {uid}, made := r.s.made[key := uid])
            && (OrderlyRun(node, r) && (forall u :: u in r.s.claims ==> !r.s.claims[u].RecordsKey(key)) ==>
                  OrderlyRun(node, r'))
  {
    hide ValidNode, IsRun, OrderlyRun, NoAdminRun;
    var key := KeyOf(node, device, giId);
    CompletedClaimShape(device, admin, key);
    r' := Admit(node, r, uid, device, admin);
    assert forall u :: u in r'.s.claims && u != uid ==> u in r.s.claims && r'.s.claims[u] == r.s.claims[u];
    r' := Materialise(node, r', uid, device, admin, giId);
  }

  /** The same claim completes. */
  lemma Complete(node: Node, r: Run, uid: Uid, device: string, admin: bool, giId: nat) returns (r': Run)
    requires ValidNode(node) && IsRun(node, r) && device in node.allocatable && node.allocatable[device].DynamicMig?
    requires var key := KeyOf(node, device, giId);
             && uid in r.s.claims && r.s.claims[uid] == StartedClaim(device, admin)
             && r.s.gis == map[key := GiOf(node, device).(ci := Some(0))]
             && key in r.s.made && r.s.made[key] == uid
    requires r.s.FreeOfCompleted(uid, Request(device, admin))
    ensures IsRun(node, r') && First(r') == First(r) && (OrderlyRun(node, r) ==> OrderlyRun(node, r'))
    ensures r'.s == r.s.(claims := r.s.claims[uid := CompletedClaim(device, admin, KeyOf(node, device, giId))],
                         begun := r.s.begun - {uid})
  {
    hide IsRun, OrderlyRun, NoAdminRun;
    var key := KeyOf(node, device, giId);
    CompletedClaimShape(device, admin, key);
    assert RecordMade(node, r.s, uid, MigRecord(device, key));
    r' := ExtendRun(node, r, WriteCompleted(uid, CompletedClaim(device, admin, key)));
  }

  /** A completed claim tears its device down, and the plugin dies before the entry is removed. */
  lemma TearDownAndCrash(node: Node, r: Run, uid: Uid, device: string, admin: bool, key: GiKey) returns (r': Run)
    requires IsRun(node, r) && uid in r.s.claims && r.s.claims[uid] == CompletedClaim(device, admin, key)
    requires key in r.s.gis && r.s.gis[key].Visible()
    ensures IsRun(node, r') && First(r') == First(r) && (OrderlyRun(node, r) ==> OrderlyRun(node, r'))
    ensures r'.s == r.s.(gis := r.s.gis - {key}, begun := r.s.begun + {uid})
  {
    hide IsRun, OrderlyRun, NoAdminRun;
    CompletedClaimShape(device, admin, key);
    r' := ExtendRun(node, r, BeginUnprepare(uid));
    r' := ExtendRun(node, r', DestroyCi(OwnUnprepare(uid), key));
    r' := ExtendRun(node, r', DestroyGi(OwnUnprepare(uid), key));
    assert r'.s.gis == r.s.gis - {key};
  }

  // --------------------------------------------------------- admin access and orphans

  /** Claim `uid` has completed with `device`, its teardown has destroyed the device, and the plugin died
      before it removed the entry. */
  lemma CompleteThenTearDown(node: Node, uid: Uid, device: string) returns (r: Run)
    requires ValidNode(node) && device in node.allocatable && node.allocatable[device].DynamicMig?
    ensures IsRun(node, r) && OrderlyRun(node, r) && First(r) == EMPTY
    ensures r.s.gis == map[] && r.s.claims == map[uid := CompletedClaim(device, false, KeyOf(node, device, 0))]
  {
    hide ValidNode, IsRun, OrderlyRun, NoAdminRun;
    r := BeginEmpty(node);
    r := PrepareUpToDevice(node, r, uid, device, false, 0);
    r := Complete(node, r, uid, device, false, 0);
    r := TearDownAndCrash(node, r, uid, device, false, KeyOf(node, device, 0));
    assert r.s.gis == map[];
  }

  lemma BeginEmpty(node: Node) returns (r: Run)
    ensures r == Begin(EMPTY) && IsRun(node, r) && OrderlyRun(node, r) && NoAdminRun(r) && First(r) == EMPTY
  {
    r := Begin(EMPTY);
  }

  /** On every node with a MIG configuration: claim A completes with it, begins its teardown and the
      plugin dies; claim B prepares the same configuration with admin access and fails before it
      completes; the rollback of B leaves B's device alone, because A lists its name; the retried
      teardown of A looks for A's old device only. B's device stays, and no checkpoint entry names it. */
  lemma AdminAccessCanOrphan(node: Node, device: string, a: Uid, b: Uid) returns (r: Run)
    requires ValidNode(node) && device in node.allocatable && node.allocatable[device].DynamicMig? && a != b
    ensures IsRun(node, r) && OrderlyRun(node, r) && FirstInstallation(First(r))
    ensures var key := KeyOf(node, device, 1);
            key in r.s.gis && r.s.gis[key].Visible() && !ListedSomewhere(node, r.s, key)
  {
    hide ValidNode, IsRun, OrderlyRun, NoAdminRun;
    var k0 := KeyOf(node, device, 0);
    r := CompleteThenTearDown(node, a, device);
    CompletedClaimShape(device, false, k0);
    CompletedClaimShape(device, true, k0);
    r := PrepareUpToDevice(node, r, b, device, true, 1);
    r := DropBoth(node, r, device, a, b, k0);
  }

  /** The rollback of `b` has nothing to do, since `a` lists the name; and `a` has nothing left to destroy. */
  lemma DropBoth(node: Node, r: Run, device: string, a: Uid, b: Uid, old_: GiKey) returns (r': Run)
    requires IsRun(node, r) && OrderlyRun(node, r) && a != b
    requires r.s.claims == map[a := CompletedClaim(device, false, old_), b := StartedClaim(device, true)]
    requires old_ !in r.s.gis
    ensures IsRun(node, r') && OrderlyRun(node, r') && First(r') == First(r)
    ensures r'.s.claims == map[] && r'.s.gis == r.s.gis
  {
    hide IsRun, OrderlyRun, NoAdminRun;
    CompletedClaimShape(device, false, old_);
    CompletedClaimShape(device, true, old_);
    assert a in r.s.claims && r.s.Completed(a) && device in r.s.claims[a].Names();
    assert r.s.ListedByCompleted(device);
    assert b in r.s.claims && RolledBack(node, r.s, b);
    r' := ExtendRun(node, r, RemoveEntry(b));
    assert r'.s.claims[a] == r.s.claims[a];
    r' := ExtendRun(node, r', RemoveEntry(a));
    assert r'.s.claims == map[];
  }

  // --------------------------------------------------------------- the lookup and orphans

  /** If the lookup leads a name to another GPU, the rollback finds nothing there and counts as done: the
      device that was made stays, and the entry goes. */
  lemma StrayLookupOrphans(node: Node, device: string, uid: Uid) returns (r: Run)
    requires ValidNode(node) && device in node.allocatable && node.allocatable[device].DynamicMig?
    requires LedAstray(node, node.allocatable[device])
    ensures IsRun(node, r) && OrderlyRun(node, r) && NoAdminRun(r) && First(r) == EMPTY
    ensures var key := KeyOf(node, device, 0);
            key in r.s.gis && r.s.gis[key].Visible() && !ListedSomewhere(node, r.s, key)
  {
    hide ValidNode, IsRun, OrderlyRun, NoAdminRun;
    r := BeginEmpty(node);
    r := PrepareUpToDevice(node, r, uid, device, false, 0);
    StrayRollback(node, r.s, device, uid);
    r := ExtendRun(node, r, RemoveEntry(uid));
    assert r.s.claims == map[];
  }

  lemma StrayRollback(node: Node, s: State, device: string, uid: Uid)
    requires ValidNode(node) && device in node.allocatable && node.allocatable[device].DynamicMig?
    requires LedAstray(node, node.allocatable[device])
    requires s.claims == map[uid := StartedClaim(device, false)]
    requires forall key :: key in s.gis ==> key.parent == node.allocatable[device].parent
    ensures RolledBack(node, s, uid)
  {
    AnnouncedNameIsRead(node, device);
    CompletedClaimShape(device, false, KeyOf(node, device, 0));
  }

  /** No admin-free run leaves a visible device unnamed, exactly when the lookup leads every announced name
      to its own GPU or nowhere. */
  lemma NoOrphansLookupIff(node: Node)
    requires ValidNode(node)
    ensures LedHome(node) <==>
            forall r, key ::
              (IsRun(node, r) && OrderlyRun(node, r) && NoAdminRun(r) && FirstInstallation(First(r)) &&
               key in r.s.gis && r.s.gis[key].Visible()) ==> ListedSomewhere(node, r.s, key)
  {
    hide ValidNode, IsRun, OrderlyRun, NoAdminRun, ListedSomewhere;
    if LedHome(node) {
      forall r, key | IsRun(node, r) && OrderlyRun(node, r) && NoAdminRun(r) && FirstInstallation(First(r)) &&
                      key in r.s.gis && r.s.gis[key].Visible()
        ensures ListedSomewhere(node, r.s, key)
      {
        FirstInstallationIsSound(node, First(r));
        NoOrphans(node, r, key);
      }
    } else {
      var device :| device in node.allocatable && node.allocatable[device].DynamicMig? &&
                    LedAstray(node, node.allocatable[device]);
      var r := StrayLookupOrphans(node, device, "a");
      assert KeyOf(node, device, 0) in r.s.gis;
    }
  }

  // ------------------------------------------------------------- reissued instance ids

  /** A teardown by recorded ids spares every other completed claim exactly when none of them records
      the same ids; the UUID that could tell the devices apart is not compared. */
  lemma OwnTeardownSparesOthersIff(node: Node, s: State, uid: Uid, key: GiKey)
    requires key in s.gis && s.gis[key].ci.Some? && MayTearDown(node, s, OwnUnprepare(uid), key)
    requires forall u, rec :: u in s.claims && s.Completed(u) && u !in s.begun && rec in s.claims[u].Records() ==>
               Live(node, s, rec)
    ensures (forall u, rec :: u in s.claims && s.Completed(u) && u !in s.begun && rec in s.claims[u].Records() ==>
               Live(node, Apply(s, DestroyCi(OwnUnprepare(uid), key)), rec))
            <==> forall u :: u in s.claims && s.Completed(u) && u !in s.begun ==> !s.claims[u].RecordsKey(key)
  {
    var t := Apply(s, DestroyCi(OwnUnprepare(uid), key));
    if forall u, rec :: u in s.claims && s.Completed(u) && u !in s.begun && rec in s.claims[u].Records() ==> Live(node, t, rec) {
      forall u | u in s.claims && s.Completed(u) && u !in s.begun ensures !s.claims[u].RecordsKey(key) {
        forall rec | rec in s.claims[u].Records() ensures rec.concrete.Key() != key {
          assert Live(node, t, rec);
        }
      }
    }
    if forall u :: u in s.claims && s.Completed(u) && u !in s.begun ==> !s.claims[u].RecordsKey(key) {
      forall u, rec | u in s.claims && s.Completed(u) && u !in s.begun && rec in s.claims[u].Records()
        ensures Live(node, t, rec)
      {
        assert Live(node, s, rec) && rec.concrete.Key() != key;
      }
    }
  }

  /** If NVML reissues an id that a checkpointed claim still records, the retried teardown of that claim
      destroys the device of whoever got the id. */
  lemma ReissuedIdLosesDevice(node: Node, first: string, second: string, a: Uid, b: Uid) returns (r: Run)
    requires ValidNode(node) && first != second && a != b
    requires first in node.allocatable && node.allocatable[first].DynamicMig?
    requires second in node.allocatable && node.allocatable[second].DynamicMig?
    requires node.allocatable[first].parent == node.allocatable[second].parent
    ensures IsRun(node, r) && First(r) == EMPTY
    ensures r.s.Completed(b) && b !in r.s.begun
    ensures var rec := MigRecord(second, KeyOf(node, second, 0));
            rec in r.s.claims[b].Records() && !Live(node, r.s, rec)
  {
    hide ValidNode, IsRun, OrderlyRun, NoAdminRun;
    var key := KeyOf(node, first, 0);
    CompletedClaimShape(first, false, key);
    CompletedClaimShape(second, false, key);
    r := CompleteThenTearDown(node, a, first);
    r := PrepareUpToDevice(node, r, b, second, false, 0);
    assert r.s.claims[a] == CompletedClaim(first, false, key);
    r := Complete(node, r, b, second, false, 0);
    assert r.s.claims[a] == CompletedClaim(first, false, key);
    r := TearDownAndCrash(node, r, a, first, false, key);
    assert r.s.claims[b] == CompletedClaim(second, false, key);
  }

  // ------------------------------------------------------------------- parent lookup

  /** The lookup as the code performs it: by a PCI bus ID that the name parser leaves empty. */
  function LookupByPci(uuidByPci: map<string, string>, known: set<string>, ms: MigSpecTuple): Option<string> {
    var uuid := if ms.parentPciBusId in uuidByPci then uuidByPci[ms.parentPciBusId] else "";
    if uuid in known then Some(uuid) else None
  }

  /** Every GPU has a PCI bus ID and a UUID, and a name yields neither. */
  ghost predicate AsWritten(node: Node, uuidByPci: map<string, string>, known: set<string>) {
    && "" !in uuidByPci && "" !in known
    && forall ms :: node.parentOf(ms) == LookupByPci(uuidByPci, known, ms)
  }

  lemma ParsedNamesFindNoGpu(node: Node, uuidByPci: map<string, string>, known: set<string>, name: string)
    requires AsWritten(node, uuidByPci, known)
    ensures var ms := NewMigSpecTupleFromCanonicalName(name); ms.Ok? ==> node.parentOf(ms.value) == None
  {
    var ms := NewMigSpecTupleFromCanonicalName(name);
    if ms.Ok? {
      assert ms.value.parentPciBusId == "";
    }
  }

  /** So a half-prepared claim can be rolled back exactly when each of its names is no MIG name, or a
      completed claim lists it. */
  lemma WrittenRollbackSucceedsIff(node: Node, uuidByPci: map<string, string>, known: set<string>, s: State, uid: Uid)
    requires AsWritten(node, uuidByPci, known) && uid in s.claims
    ensures RolledBack(node, s, uid) <==>
            forall name :: name in s.claims[uid].Names() ==>
              NewMigSpecTupleFromCanonicalName(name).Err? || s.ListedByCompleted(name)
  {
    hide NewMigSpecTupleFromCanonicalName;
    forall name | name in s.claims[uid].Names()
      ensures NameRolledBack(node, s, name) <==> NewMigSpecTupleFromCanonicalName(name).Err? || s.ListedByCompleted(name)
    {
      ParsedNamesFindNoGpu(node, uuidByPci, known, name);
    }
    if RolledBack(node, s, uid) {
      forall name | name in s.claims[uid].Names()
        ensures NewMigSpecTupleFromCanonicalName(name).Err? || s.ListedByCompleted(name)
      {
        assert NameRolledBack(node, s, name);
      }
    }
  }

  /** Neither Unprepare nor a retried Prepare gets such a claim anywhere: its entry stays as it is for as
      long as no completed claim lists the name. */
  lemma {:induction false} StuckUntilListed(
    node: Node, uuidByPci: map<string, string>, known: set<string>, p: Run, r: Run, uid: Uid, name: string)
    requires AsWritten(node, uuidByPci, known) && IsRun(node, r) && Extends(p, r)
    requires p.s.Started(uid) && name in p.s.claims[uid].Names() && NewMigSpecTupleFromCanonicalName(name).Ok?
    requires forall q :: Extends(p, q) && Extends(q, r) ==> !q.s.ListedByCompleted(name)
    ensures r.s.Started(uid) && r.s.claims[uid] == p.s.claims[uid]
    ensures forall claim :: !Enabled(node, r.s, WriteStarted(uid, claim))
    ensures !Enabled(node, r.s, RemoveEntry(uid))
  {
    hide NewMigSpecTupleFromCanonicalName;
    if p != r {
      forall q | Extends(p, q) && Extends(q, r.before) ensures !q.s.ListedByCompleted(name) {
        assert Extends(q, r);
      }
      StuckUntilListed(node, uuidByPci, known, p, r.before, uid, name);
      assert Extends(r, r);
      EntryStays(node, r.before.s, r.step, uid, name);
    }
    assert Extends(r, r);
    WrittenRollbackSucceedsIff(node, uuidByPci, known, r.s, uid);
  }

  lemma EntryStays(node: Node, s: State, l: Label, uid: Uid, name: string)
    requires s.Started(uid) && name in s.claims[uid].Names() && Enabled(node, s, l)
    requires !(l == RemoveEntry(uid)) && !(l.WriteStarted? && l.uid == uid)
    ensures Apply(s, l).ListedByCompleted(name) || (Apply(s, l).Started(uid) && Apply(s, l).claims[uid] == s.claims[uid])
  {
    var t := Apply(s, l);
    if l.WriteCompleted? && l.uid == uid {
      assert uid in t.claims && name in t.claims[uid].Names();
    }
  }

  /** So the lookup as written meets the assumptions of the guarantees: it never leads anywhere. */
  lemma WrittenLookupLeadsNowhere(node: Node, uuidByPci: map<string, string>, known: set<string>)
    requires ValidNode(node) && AsWritten(node, uuidByPci, known)
    ensures LedHome(node) && NeverMisled(node)
  {
    assert LedHome(node);
    LedHomeIsNeverMisled(node);
  }

  /** `a` has completed with `held`, and `b` has started with `wanted`. */
  lemma HeldThenWanted(node: Node, held: string, wanted: string, a: Uid, b: Uid) returns (r: Run)
    requires ValidNode(node) && held != wanted && a != b
    requires held in node.allocatable && node.allocatable[held].DynamicMig?
    requires wanted in node.allocatable && node.allocatable[wanted].DynamicMig?
    ensures IsRun(node, r) && OrderlyRun(node, r) && First(r) == EMPTY && r.s.begun == {}
    ensures var key := KeyOf(node, held, 0);
            && r.s.claims == map[a := CompletedClaim(held, false, key), b := StartedClaim(wanted, false)]
            && r.s.gis == map[key := GiOf(node, held).(ci := Some(0))]
  {
    hide ValidNode, IsRun, OrderlyRun, NoAdminRun;
    var key := KeyOf(node, held, 0);
    CompletedClaimShape(held, false, key);
    CompletedClaimShape(wanted, false, key);
    r := BeginEmpty(node);
    r := PrepareUpToDevice(node, r, a, held, false, 0);
    r := Complete(node, r, a, held, false, 0);
    r := Admit(node, r, b, wanted, false);
  }

  /** What goes wrong with a lookup that finds the wrong GPU: rolling back a half-prepared claim on one
      GPU destroys the device of a completed claim on another. */
  lemma WrongParentLosesDevice(node: Node, held: string, wanted: string, a: Uid, b: Uid) returns (r: Run)
    requires ValidNode(node) && held != wanted && a != b
    requires held in node.allocatable && node.allocatable[held].DynamicMig?
    requires wanted in node.allocatable && node.allocatable[wanted].DynamicMig?
    requires Misled(node, node.allocatable[held], node.allocatable[wanted])
    ensures IsRun(node, r) && OrderlyRun(node, r) && First(r) == EMPTY
    ensures r.s.Completed(a) && a !in r.s.begun
    ensures var rec := MigRecord(held, KeyOf(node, held, 0));
            rec in r.s.claims[a].Records() && !Live(node, r.s, rec)
  {
    hide ValidNode, IsRun, OrderlyRun, NoAdminRun, MayTearDown;
    var key := KeyOf(node, held, 0);
    r := HeldThenWanted(node, held, wanted, a, b);
    CompletedClaimShape(held, false, key);
    MisledRollback(node, r.s, held, wanted, a, b, key);
    r := ExtendRun(node, r, DestroyCi(Rollback(b, wanted), key));
  }

  lemma MisledRollback(node: Node, s: State, held: string, wanted: string, a: Uid, b: Uid, key: GiKey)
    requires ValidNode(node) && held != wanted && a != b
    requires wanted in node.allocatable && node.allocatable[wanted].DynamicMig?
    requires var w := node.allocatable[wanted];
             && node.parentOf(SpecOf(node, w)) == Some(key.parent)
             && key in s.gis && s.gis[key].profileId == w.profileId && s.gis[key].start == w.start
    requires s.claims == map[a := CompletedClaim(held, false, key), b := StartedClaim(wanted, false)]
    ensures MayTearDown(node, s, Rollback(b, wanted), key)
  {
    hide ToCanonicalName, NewMigSpecTupleFromCanonicalName, ValidNode;
    AnnouncedNameIsRead(node, wanted);
    CompletedClaimShape(held, false, key);
    CompletedClaimShape(wanted, false, key);
  }

  /** The devices of completed claims stay live over every run exactly when the lookup never misleads. */
  lemma DevicesStayLiveIff(node: Node)
    requires ValidNode(node)
    ensures NeverMisled(node) <==>
            forall r, uid, rec ::
              (IsRun(node, r) && OrderlyRun(node, r) && First(r).claims == map[] &&
               r.s.Completed(uid) && uid !in r.s.begun && rec in r.s.claims[uid].Records()) ==> Live(node, r.s, rec)
  {
    hide ValidNode, IsRun, OrderlyRun, NoAdminRun, Live;
    if NeverMisled(node) {
      forall r, uid, rec | IsRun(node, r) && OrderlyRun(node, r) && First(r).claims == map[] &&
                           r.s.Completed(uid) && uid !in r.s.begun && rec in r.s.claims[uid].Records()
        ensures Live(node, r.s, rec)
      {
        CompletedDevicesStayLive(node, r, uid, rec);
      }
    } else {
      var held, wanted :| held in node.allocatable && wanted in node.allocatable && held != wanted &&
                          Misled(node, node.allocatable[held], node.allocatable[wanted]);
      var r := WrongParentLosesDevice(node, held, wanted, "a", "b");
      assert MigRecord(held, KeyOf(node, held, 0)) in r.s.claims["a"].Records();
    }
  }
}
