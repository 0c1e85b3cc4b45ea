/** No MIG device without a checkpoint entry that leads to it. */
module GpuOrphans {
  import opened Basics
  import opened Claims
  import opened MigNames
  import opened GpuProtocol
  import opened GpuInvariants

  ghost predicate ListedSomewhere(node: Node, s: State, key: GiKey)
    requires key in s.gis
  {
    exists uid :: uid in s.claims && node.GiName(key, s.gis[key]) in s.claims[uid].Names()
  }

  /** A claim that will lead some cleanup to this device: half prepared and naming it, or completed and
      naming and recording it. */
  predicate Owns(node: Node, s: State, uid: Uid, key: GiKey)
    requires key in s.gis
  {
    && uid in s.claims
    && node.GiName(key, s.gis[key]) in s.claims[uid].Names()
    && (s.Started(uid) || (s.Completed(uid) && s.claims[uid].RecordsKey(key)))
  }

  ghost predicate Owned(node: Node, s: State, key: GiKey)
    requires key in s.gis
  {
    exists uid :: uid in s.claims && Owns(node, s, uid, key)
  }

  ghost predicate OrphanFree(node: Node, s: State) {
    forall key :: key in s.gis && s.gis[key].Visible() ==> Owned(node, s, key)
  }

  predicate Announced(node: Node, s: State, key: GiKey)
    requires key in s.gis
  {
    node.Creates(node.GiName(key, s.gis[key]), key, s.gis[key])
  }

  /** A device that a completed claim records is of the configuration whose name the claim carries. */
  predicate RecordNamed(node: Node, s: State, uid: Uid, rec: PreparedMigDevice)
    requires uid in s.claims && rec.concrete.Key() in s.gis
  {
    && rec.device.deviceName in s.claims[uid].Names()
    && node.Creates(rec.device.deviceName, rec.concrete.Key(), s.gis[rec.concrete.Key()])
  }

  /** What every orderly run keeps, whatever the lookup and with admin access or without. */
  ghost predicate BaseInv(node: Node, s: State) {
    && PlacementsApart(s)
    && (forall uid :: uid in s.claims ==> Published(node, s.claims[uid].results))
    && (forall key :: key in s.gis && s.gis[key].Visible() ==> Announced(node, s, key))
    && (forall uid, rec :: uid in s.claims && s.Completed(uid) && rec in s.claims[uid].Records() && rec.concrete.Key() in s.gis ==>
          RecordNamed(node, s, uid, rec))
  }

  // ------------------------------------------------------------------- placement

  predicate Apart(s: State, k: GiKey, m: GiKey)
    requires k in s.gis && m in s.gis
  {
    s.gis[k].start + s.gis[k].size <= s.gis[m].start || s.gis[m].start + s.gis[m].size <= s.gis[k].start
  }

  lemma OnlyCreationMoves(s: State, l: Label, k: GiKey)
    requires k in Apply(s, l).gis && (l.CreateGi? ==> k != l.key)
    ensures var t := Apply(s, l); k in s.gis && t.gis[k].start == s.gis[k].start && t.gis[k].size == s.gis[k].size
  {
  }

  lemma SizeStaysPositive(node: Node, s: State, l: Label, k: GiKey)
    requires ValidNode(node) && PlacementsApart(s) && Enabled(node, s, l) && k in Apply(s, l).gis
    ensures Apply(s, l).gis[k].size >= 1
  {
    if l.CreateGi? && k == l.key {
      CreatedFromName(node, l.device, k, l.gi);
    } else {
      OnlyCreationMoves(s, l, k);
    }
  }

  lemma PlacementsStayApart(node: Node, s: State, l: Label)
    requires ValidNode(node) && PlacementsApart(s) && Enabled(node, s, l)
    ensures PlacementsApart(Apply(s, l))
  {
    hide ValidNode, Enabled, Apply;
    var t := Apply(s, l);
    forall k | k in t.gis ensures t.gis[k].size >= 1 {
      SizeStaysPositive(node, s, l, k);
    }
    forall k, m | k in t.gis && m in t.gis && k != m && k.parent == m.parent ensures Apart(t, k, m) {
      PairStaysApart(node, s, l, k, m);
    }
  }

  lemma PairStaysApart(node: Node, s: State, l: Label, k: GiKey, m: GiKey)
    requires PlacementsApart(s) && Enabled(node, s, l)
    requires var t := Apply(s, l); k in t.gis && m in t.gis && k != m && k.parent == m.parent
    ensures Apart(Apply(s, l), k, m)
  {
    if l.CreateGi? && k == l.key {
      OnlyCreationMoves(s, l, m);
      assert s.PlacementFree(l.key.parent, l.gi.start, l.gi.size);
    } else if l.CreateGi? && m == l.key {
      OnlyCreationMoves(s, l, k);
      assert s.PlacementFree(l.key.parent, l.gi.start, l.gi.size);
    } else {
      OnlyCreationMoves(s, l, k);
      OnlyCreationMoves(s, l, m);
    }
  }

  /** Two live devices of one configuration are one device. */
  lemma SameNameSameDevice(node: Node, s: State, k: GiKey, m: GiKey)
    requires ValidNode(node) && PlacementsApart(s)
    requires k in s.gis && m in s.gis && Announced(node, s, k) && node.Creates(node.GiName(k, s.gis[k]), m, s.gis[m])
    ensures k == m
  {
    assert s.gis[k].start == s.gis[m].start && k.parent == m.parent;
  }

  // ------------------------------------------------------------- what every run keeps

  lemma RecordStaysNamed(node: Node, s: State, l: Label, uid: Uid, rec: PreparedMigDevice)
    requires ValidNode(node) && BaseInv(node, s) && Enabled(node, s, l) && Orderly(node, s, l)
    requires var t := Apply(s, l);
             uid in t.claims && t.Completed(uid) && rec in t.claims[uid].Records() && rec.concrete.Key() in t.gis
    ensures RecordNamed(node, Apply(s, l), uid, rec)
  {
    if l.WriteCompleted? && l.uid == uid {
      assert RecordMade(node, s, uid, rec);
    } else {
      assert s.Completed(uid) && rec in s.claims[uid].Records();
      if l.CreateGi? {
        assert !s.claims[uid].RecordsKey(l.key);
        assert rec.concrete.Key() != l.key;
      }
      assert RecordNamed(node, s, uid, rec);
    }
  }

  lemma VisibleBefore(node: Node, s: State, l: Label, key: GiKey)
    requires Enabled(node, s, l) && key in Apply(s, l).gis && Apply(s, l).gis[key].Visible()
    ensures (l.CreateCi? && l.key == key) || (key in s.gis && s.gis[key] == Apply(s, l).gis[key])
  {
  }

  lemma StaysAnnounced(node: Node, s: State, l: Label, key: GiKey)
    requires ValidNode(node) && BaseInv(node, s) && Enabled(node, s, l)
    requires key in Apply(s, l).gis && Apply(s, l).gis[key].Visible()
    ensures Announced(node, Apply(s, l), key)
  {
    VisibleBefore(node, s, l, key);
    if l.CreateCi? && l.key == key {
      CreatedFromName(node, l.device, key, s.gis[key]);
    }
  }

  lemma ClaimsStayPublished(node: Node, s: State, l: Label, uid: Uid)
    requires BaseInv(node, s) && Enabled(node, s, l) && Orderly(node, s, l) && uid in Apply(s, l).claims
    ensures Published(node, Apply(s, l).claims[uid].results)
  {
    if l.WriteCompleted? && l.uid == uid {
      assert Apply(s, l).claims[uid].results == s.claims[uid].results;
    }
  }

  lemma BaseInvStep(node: Node, s: State, l: Label)
    requires ValidNode(node) && BaseInv(node, s) && Enabled(node, s, l) && Orderly(node, s, l)
    ensures BaseInv(node, Apply(s, l))
  {
    hide ValidNode, Enabled, Apply, Orderly, Announced, RecordNamed, Published;
    var t := Apply(s, l);
    PlacementsStayApart(node, s, l);
    forall uid | uid in t.claims ensures Published(node, t.claims[uid].results) {
      ClaimsStayPublished(node, s, l, uid);
    }
    forall key | key in t.gis && t.gis[key].Visible() ensures Announced(node, t, key) {
      StaysAnnounced(node, s, l, key);
    }
    forall uid, rec | uid in t.claims && t.Completed(uid) && rec in t.claims[uid].Records() && rec.concrete.Key() in t.gis
      ensures RecordNamed(node, t, uid, rec)
    {
      RecordStaysNamed(node, s, l, uid, rec);
    }
  }

  // ------------------------------------------------------------------ dropping names

  /** The step takes this name out of the entry of its claim: the entry goes, or a retry overwrites a
      half-prepared entry by one with other results. */
  predicate Drops(s: State, l: Label, name: string) {
    match l
    case RemoveEntry(uid) => uid in s.claims && name in s.claims[uid].Names()
    case WriteStarted(uid, claim) => uid in s.claims && name in s.claims[uid].Names() && name !in claim.Names()
    case _ => false
  }

  /** Some other claim has completed and records the device, or is half prepared and names it. */
  ghost predicate HeldElsewhere(node: Node, s: State, uid: Uid, key: GiKey)
    requires key in s.gis
  {
    exists other :: other in s.claims && other != uid && HeldBy(node, s, other, key)
  }

  predicate HeldBy(node: Node, s: State, other: Uid, key: GiKey)
    requires key in s.gis && other in s.claims
  {
    || (s.Completed(other) && s.claims[other].RecordsKey(key))
    || (s.Started(other) && node.GiName(key, s.gis[key]) in s.claims[other].Names())
  }

  /** Every visible device whose name is dropped although a completed claim lists it (which is why the
      rollback left it alone) is held elsewhere. */
  ghost predicate CleanDrop(node: Node, s: State, l: Label) {
    forall key :: (key in s.gis && s.gis[key].Visible() && Drops(s, l, node.GiName(key, s.gis[key])) &&
                   s.ListedByCompleted(node.GiName(key, s.gis[key]))) ==>
      (l.RemoveEntry? || l.WriteStarted?) && HeldElsewhere(node, s, l.uid, key)
  }

  ghost predicate CleanDrops(node: Node, r: Run) {
    match r
    case Begin(_) => true
    case Then(before, step, _) => CleanDrops(node, before) && CleanDrop(node, before.s, step)
  }

  lemma HolderOwns(node: Node, s: State, other: Uid, key: GiKey)
    requires ValidNode(node) && BaseInv(node, s) && key in s.gis && other in s.claims
    ensures HeldBy(node, s, other, key) <==> Owns(node, s, other, key)
  {
    if s.Completed(other) && s.claims[other].RecordsKey(key) {
      var rec :| rec in s.claims[other].Records() && rec.concrete.Key() == key;
      assert RecordNamed(node, s, other, rec);
      CreatedFromName(node, rec.device.deviceName, key, s.gis[key]);
    }
  }

  lemma RolledBackNameIsListed(node: Node, s: State, key: GiKey)
    requires ValidNode(node) && LedHome(node)
    requires key in s.gis && s.gis[key].Visible() && Announced(node, s, key)
    requires NameRolledBack(node, s, node.GiName(key, s.gis[key]))
    ensures s.ListedByCompleted(node.GiName(key, s.gis[key]))
  {
    var name := node.GiName(key, s.gis[key]);
    AnnouncedNameIsRead(node, name);
    assert !LedAstray(node, node.allocatable[name]);
    var ms := NewMigSpecTupleFromCanonicalName(name).value;
    if node.parentOf(ms).Some? {
      assert !s.NoneVisible(key.parent, ms);
    }
  }

  /** A dropped name of a visible device is listed by a completed claim: the dropped claim itself is
      completed, or it has been rolled back. */
  lemma DroppedNameIsListed(node: Node, s: State, l: Label, key: GiKey)
    requires ValidNode(node) && LedHome(node) && BaseInv(node, s) && Enabled(node, s, l)
    requires key in s.gis && s.gis[key].Visible() && Drops(s, l, node.GiName(key, s.gis[key]))
    requires s.Started(l.uid) || s.Completed(l.uid)
    ensures s.ListedByCompleted(node.GiName(key, s.gis[key]))
  {
    if s.Started(l.uid) {
      assert NameRolledBack(node, s, node.GiName(key, s.gis[key]));
      RolledBackNameIsListed(node, s, key);
    }
  }

  /** An owner that survives the step. */
  lemma OwnerAfter(node: Node, s: State, l: Label, key: GiKey) returns (owner: Uid)
    requires ValidNode(node) && LedHome(node) && BaseInv(node, s) && Enabled(node, s, l) && CleanDrop(node, s, l)
    requires key in s.gis && s.gis[key].Visible() && Owned(node, s, key)
    ensures owner in s.claims && Owns(node, s, owner, key)
    ensures Drops(s, l, node.GiName(key, s.gis[key])) ==> owner != l.uid
  {
    owner :| owner in s.claims && Owns(node, s, owner, key);
    if Drops(s, l, node.GiName(key, s.gis[key])) && owner == l.uid {
      DroppedNameIsListed(node, s, l, key);
      owner :| owner in s.claims && owner != l.uid && HeldBy(node, s, owner, key);
      HolderOwns(node, s, owner, key);
    }
  }

  lemma OwnedAfter(node: Node, s: State, l: Label, key: GiKey)
    requires ValidNode(node) && LedHome(node) && BaseInv(node, s) && Enabled(node, s, l) && CleanDrop(node, s, l)
    requires key in s.gis && s.gis[key].Visible() && Owned(node, s, key)
    requires key in Apply(s, l).gis && Apply(s, l).gis[key] == s.gis[key]
    ensures Owned(node, Apply(s, l), key)
  {
    var owner := OwnerAfter(node, s, l, key);
    if l.WriteCompleted? && l.uid == owner {
      CompletionRecordsItsDevices(node, s, owner, l.claim, key);
    }
    OwnerStays(node, s, l, key, owner);
  }

  lemma OwnerStays(node: Node, s: State, l: Label, key: GiKey, owner: Uid)
    requires Enabled(node, s, l)
    requires key in s.gis && key in Apply(s, l).gis && Apply(s, l).gis[key] == s.gis[key]
    requires owner in s.claims && Owns(node, s, owner, key)
    requires Drops(s, l, node.GiName(key, s.gis[key])) ==> owner != l.uid
    requires l.WriteCompleted? && l.uid == owner ==> l.claim.RecordsKey(key)
    ensures Owned(node, Apply(s, l), key)
  {
    var t := Apply(s, l);
    match l
    case WriteCompleted(uid, claim) =>
      assert Owns(node, t, owner, key);
    case RemoveEntry(uid) =>
      assert owner != uid && t.claims[owner] == s.claims[owner];
      assert Owns(node, t, owner, key);
    case WriteStarted(uid, claim) =>
      assert owner != uid ==> t.claims[owner] == s.claims[owner];
      assert Owns(node, t, owner, key);
    case _ =>
      assert Owns(node, t, owner, key);
  }

  /** Two live devices of one configuration are one device; so the partition of the results into prepared
      devices leaves no announced MIG name unrecorded. */
  lemma CompletionRecordsItsDevices(node: Node, s: State, uid: Uid, claim: PreparedClaim, key: GiKey)
    requires ValidNode(node) && BaseInv(node, s) && MayComplete(node, s, uid, claim)
    requires key in s.gis && s.gis[key].Visible() && node.GiName(key, s.gis[key]) in claim.Names()
    ensures claim.RecordsKey(key)
  {
    var name := node.GiName(key, s.gis[key]);
    assert Announced(node, s, key);
    AnnouncedNameIsRead(node, name);
    var r :| r in claim.results && r.device == name;
    var rec :| rec in claim.Records() && rec.device.deviceName == name;
    assert RecordMade(node, s, uid, rec);
    SameNameSameDevice(node, s, key, rec.concrete.Key());
  }

  /** A clean step of a state without orphans leads to one, ... */
  lemma CleanStepKeepsOrphanFree(node: Node, s: State, l: Label)
    requires ValidNode(node) && LedHome(node) && BaseInv(node, s) && OrphanFree(node, s)
    requires Enabled(node, s, l) && CleanDrop(node, s, l)
    ensures OrphanFree(node, Apply(s, l))
  {
    hide ValidNode, LedHome, BaseInv, Enabled, Apply, CleanDrop, Owned;
    var t := Apply(s, l);
    forall key | key in t.gis && t.gis[key].Visible() ensures Owned(node, t, key) {
      VisibleBefore(node, s, l, key);
      if l.CreateCi? && l.key == key {
        CreatorOwns(node, s, l);
      } else {
        OwnedAfter(node, s, l, key);
      }
    }
  }

  lemma CreatorOwns(node: Node, s: State, l: Label)
    requires ValidNode(node) && l.CreateCi? && Enabled(node, s, l)
    ensures Owned(node, Apply(s, l), l.key)
  {
    CreatedFromName(node, l.device, l.key, s.gis[l.key]);
    assert Owns(node, Apply(s, l), l.uid, l.key);
  }

  /** ... and any step to a state without orphans is clean. */
  lemma StepWithoutOrphansIsClean(node: Node, s: State, l: Label)
    requires ValidNode(node) && BaseInv(node, s) && Enabled(node, s, l) && OrphanFree(node, Apply(s, l))
    ensures CleanDrop(node, s, l)
  {
    var t := Apply(s, l);
    forall key | key in s.gis && s.gis[key].Visible() && Drops(s, l, node.GiName(key, s.gis[key]))
      ensures (l.RemoveEntry? || l.WriteStarted?) && HeldElsewhere(node, s, l.uid, key)
    {
      assert Owned(node, t, key);
      var owner :| owner in t.claims && Owns(node, t, owner, key);
      assert owner != l.uid && s.claims[owner] == t.claims[owner];
      assert HeldBy(node, s, owner, key);
    }
  }

  // ------------------------------------------------------------------------- over runs

  lemma {:induction false} BaseInvThroughout(node: Node, r: Run)
    requires ValidNode(node) && IsRun(node, r) && OrderlyRun(node, r) && BaseInv(node, First(r))
    ensures BaseInv(node, r.s)
  {
    if r.Then? {
      BaseInvThroughout(node, r.before);
      BaseInvStep(node, r.before.s, r.step);
    }
  }

  lemma {:induction false} CleanRunIsOrphanFree(node: Node, r: Run)
    requires ValidNode(node) && LedHome(node) && IsRun(node, r) && OrderlyRun(node, r)
    requires BaseInv(node, First(r)) && OrphanFree(node, First(r)) && CleanDrops(node, r)
    ensures OrphanFree(node, r.s)
  {
    if r.Then? {
      CleanRunIsOrphanFree(node, r.before);
      BaseInvThroughout(node, r.before);
      CleanStepKeepsOrphanFree(node, r.before.s, r.step);
    }
  }

  lemma {:induction false} CleanUpTo(node: Node, prefix: Run, r: Run)
    requires IsRun(node, r) && OrderlyRun(node, r) && CleanDrops(node, r) && Extends(prefix, r)
    ensures IsRun(node, prefix) && OrderlyRun(node, prefix) && CleanDrops(node, prefix) && First(prefix) == First(r)
  {
    if prefix != r {
      CleanUpTo(node, prefix, r.before);
    }
  }

  lemma {:induction false} OrphanFreeRunIsClean(node: Node, r: Run)
    requires ValidNode(node) && IsRun(node, r) && OrderlyRun(node, r) && BaseInv(node, First(r))
    requires forall p :: Extends(p, r) ==> OrphanFree(node, p.s)
    ensures CleanDrops(node, r)
  {
    if r.Then? {
      forall p | Extends(p, r.before) ensures OrphanFree(node, p.s) {
        assert Extends(p, r);
      }
      OrphanFreeRunIsClean(node, r.before);
      BaseInvThroughout(node, r.before);
      assert Extends(r, r);
      StepWithoutOrphansIsClean(node, r.before.s, r.step);
    }
  }

  /** With a lookup that leads home, and with admin access allowed: a run is free of orphans all along, that
      is wherever the plugin may have died, exactly when each step of it that drops a name finds the
      visible devices of that name which a completed claim lists held by some other claim. */
  lemma NoOrphansIff(node: Node, r: Run)
    requires ValidNode(node) && LedHome(node) && IsRun(node, r) && OrderlyRun(node, r)
    requires BaseInv(node, First(r)) && OrphanFree(node, First(r))
    ensures (forall p :: Extends(p, r) ==> OrphanFree(node, p.s)) <==> CleanDrops(node, r)
  {
    if CleanDrops(node, r) {
      forall p | Extends(p, r) ensures OrphanFree(node, p.s) {
        CleanUpTo(node, p, r);
        CleanRunIsOrphanFree(node, p);
      }
    }
    if forall p :: Extends(p, r) ==> OrphanFree(node, p.s) {
      OrphanFreeRunIsClean(node, r);
    }
  }

  // ------------------------------------------------------------- without admin access

  /** A completed claim that lists the name of a visible device records that very device. */
  ghost predicate ListedIsRecorded(node: Node, s: State, uid: Uid, key: GiKey)
    requires key in s.gis && uid in s.claims
  {
    node.GiName(key, s.gis[key]) in s.claims[uid].Names() ==> s.claims[uid].RecordsKey(key)
  }

  ghost predicate NoAdminInv(node: Node, s: State) {
    && (forall uid :: uid in s.claims ==> WithoutAdminMig(s.claims[uid].results))
    && (forall uid, key :: uid in s.claims && s.Completed(uid) && key in s.gis && s.gis[key].Visible() ==>
          ListedIsRecorded(node, s, uid, key))
  }

  lemma ListedMigIsNonAdmin(node: Node, claim: PreparedClaim, name: string)
    requires Published(node, claim.results) && WithoutAdminMig(claim.results)
    requires name in claim.Names() && NewMigSpecTupleFromCanonicalName(name).Ok?
    ensures name in claim.NonAdmin()
  {
    var r :| r in claim.results && r.device == name;
    assert IsNonAdmin(DRIVER_NAME, r);
  }

  /** A device is only created for a name that no completed claim holds. */
  lemma NewNameIsUnlisted(node: Node, s: State, uid: Uid, device: string, other: Uid)
    requires BaseInv(node, s) && NoAdminInv(node, s)
    requires s.Started(uid) && s.FreeOfCompleted(uid, s.claims[uid].results)
    requires device in s.claims[uid].Names() && NewMigSpecTupleFromCanonicalName(device).Ok?
    requires s.Completed(other)
    ensures device !in s.claims[other].Names()
  {
    assert s.claims[other].NonAdmin() !! s.claims[uid].NonAdmin();
    ListedMigIsNonAdmin(node, s.claims[uid], device);
    if device in s.claims[other].Names() {
      ListedMigIsNonAdmin(node, s.claims[other], device);
    }
  }

  lemma ListedIsRecordedAfter(node: Node, s: State, l: Label, uid: Uid, key: GiKey)
    requires ValidNode(node) && BaseInv(node, s) && NoAdminInv(node, s) && Enabled(node, s, l)
    requires var t := Apply(s, l); key in t.gis && t.gis[key].Visible() && uid in t.claims && t.Completed(uid)
    ensures ListedIsRecorded(node, Apply(s, l), uid, key)
  {
    VisibleBefore(node, s, l, key);
    if l.CreateCi? && l.key == key {
      CreatedFromName(node, l.device, l.key, s.gis[l.key]);
      NewNameIsUnlisted(node, s, l.uid, l.device, uid);
    } else if l.WriteCompleted? && l.uid == uid {
      if node.GiName(key, s.gis[key]) in l.claim.Names() {
        CompletionRecordsItsDevices(node, s, uid, l.claim, key);
      }
    } else {
      assert s.Completed(uid) && ListedIsRecorded(node, s, uid, key);
    }
  }

  lemma NoAdminInvStep(node: Node, s: State, l: Label)
    requires ValidNode(node) && BaseInv(node, s) && NoAdminInv(node, s) && Enabled(node, s, l)
    requires l.WriteStarted? ==> WithoutAdminMig(l.claim.results)
    ensures NoAdminInv(node, Apply(s, l))
  {
    hide ValidNode, BaseInv, ListedIsRecorded;
    var t := Apply(s, l);
    forall uid, key | uid in t.claims && t.Completed(uid) && key in t.gis && t.gis[key].Visible()
      ensures ListedIsRecorded(node, t, uid, key)
    {
      ListedIsRecordedAfter(node, s, l, uid, key);
    }
    forall uid | uid in t.claims ensures WithoutAdminMig(t.claims[uid].results) {
      if l.WriteCompleted? && l.uid == uid {
        assert t.claims[uid].results == s.claims[uid].results;
      }
    }
  }

  /** Then a listed device is recorded by the claim that lists it; and a claim that is dropped records no
      device any more. */
  lemma WithoutAdminDropsAreClean(node: Node, s: State, l: Label)
    requires NoAdminInv(node, s) && Enabled(node, s, l)
    ensures CleanDrop(node, s, l)
  {
    forall key | key in s.gis && s.gis[key].Visible() && Drops(s, l, node.GiName(key, s.gis[key])) &&
                 s.ListedByCompleted(node.GiName(key, s.gis[key]))
      ensures (l.RemoveEntry? || l.WriteStarted?) && HeldElsewhere(node, s, l.uid, key)
    {
      var name := node.GiName(key, s.gis[key]);
      var other :| other in s.claims && s.claims[other].phase == PrepareCompleted && name in s.claims[other].Names();
      assert ListedIsRecorded(node, s, other, key);
      assert HeldBy(node, s, other, key);
    }
  }

  lemma {:induction false} NoAdminRunIsClean(node: Node, r: Run)
    requires ValidNode(node) && IsRun(node, r) && OrderlyRun(node, r) && NoAdminRun(r)
    requires BaseInv(node, First(r)) && NoAdminInv(node, First(r))
    ensures NoAdminInv(node, r.s) && CleanDrops(node, r)
  {
    if r.Then? {
      NoAdminRunIsClean(node, r.before);
      BaseInvThroughout(node, r.before);
      NoAdminInvStep(node, r.before.s, r.step);
      WithoutAdminDropsAreClean(node, r.before.s, r.step);
    }
  }

  /** Without admin access to MIG names, every drop is clean: wherever the plugin stopped, a visible MIG
      device is named in the results of some checkpointed claim, which is half prepared or records it. */
  lemma NoOrphans(node: Node, r: Run, key: GiKey)
    requires ValidNode(node) && LedHome(node) && IsRun(node, r) && OrderlyRun(node, r) && NoAdminRun(r)
    requires BaseInv(node, First(r)) && OrphanFree(node, First(r)) && NoAdminInv(node, First(r))
    requires key in r.s.gis && r.s.gis[key].Visible()
    ensures ListedSomewhere(node, r.s, key) && Owned(node, r.s, key)
  {
    NoAdminRunIsClean(node, r);
    NoOrphansIff(node, r);
    assert Extends(r, r);
    assert Owned(node, r.s, key);
  }

  // ----------------------------------------------------------------------- good starts

  /** A state from which all guarantees hold on. */
  ghost predicate SoundStart(node: Node, s: State) {
    LiveInv(node, s) && DisjointInv(s) && BaseInv(node, s) && OrphanFree(node, s)
  }

  lemma FirstInstallationIsSound(node: Node, s: State)
    requires FirstInstallation(s)
    ensures SoundStart(node, s) && NoAdminInv(node, s)
  {
  }

  /** What the plugin may find when it starts over what is left: completed claims whose devices are live and
      recorded, none of them being torn down, and any number of other devices, made by whomever. */
  ghost predicate Recoverable(node: Node, s: State) {
    && LiveInv(node, s) && DisjointInv(s) && PlacementsApart(s)
    && (forall uid :: uid in s.claims && s.Completed(uid) ==> uid !in s.begun && AllRecorded(node, s.claims[uid]))
    && (forall key :: key in s.gis ==> SitsWhereNamed(node, s, key))
  }

  /** The name made up for the device is read back as its GPU, profile and placement. */
  ghost predicate SitsWhereNamed(node: Node, s: State, key: GiKey)
    requires key in s.gis
  {
    && key.parent in node.minors
    && NewMigSpecTupleFromCanonicalName(node.GiName(key, s.gis[key])) ==
       Ok(MigSpecTuple(node.Minor(key.parent), "", s.gis[key].profileId, s.gis[key].start))
  }

  ghost predicate AllRecorded(node: Node, claim: PreparedClaim) {
    forall r :: r in claim.results && r.driver == DRIVER_NAME && r.device in node.allocatable &&
                node.allocatable[r.device].DynamicMig? ==>
      exists rec :: rec in claim.Records() && rec.device.deviceName == r.device
  }

  /** A listed device is the one that the listing claim records, since it sits where that one sits. */
  lemma ListedDeviceIsRecorded(node: Node, s: State, uid: Uid, key: GiKey)
    requires ValidNode(node) && Recoverable(node, s)
    requires key in s.gis && s.Completed(uid) && node.GiName(key, s.gis[key]) in s.claims[uid].Names()
    ensures s.claims[uid].RecordsKey(key) && Announced(node, s, key)
  {
    var name := node.GiName(key, s.gis[key]);
    assert SitsWhereNamed(node, s, key);
    var r :| r in s.claims[uid].results && r.device == name;
    assert Published(node, s.claims[uid].results);
    assert ValidAnnouncement(node, name, node.allocatable[name]);
    AnnouncedNameIsRead(node, name);
    assert AllRecorded(node, s.claims[uid]);
    var rec :| rec in s.claims[uid].Records() && rec.device.deviceName == name;
    assert RecordOk(node, s, uid, rec);
    assert node.allocatable[name].parent == key.parent;
    assert rec.concrete.Key() == key;
  }

  /** After a complete sweep, which leaves only devices that completed claims list, there is no orphan, and
      everything that later runs rely on holds. */
  lemma SweptIsSound(node: Node, s: State)
    requires ValidNode(node) && Recoverable(node, s)
    requires forall key :: s.Visible(key) ==> s.ListedByCompleted(node.GiName(key, s.gis[key]))
    ensures SoundStart(node, s)
    ensures (forall uid :: uid in s.claims ==> WithoutAdminMig(s.claims[uid].results)) ==> NoAdminInv(node, s)
  {
    forall key | key in s.gis && s.gis[key].Visible() ensures Announced(node, s, key) && Owned(node, s, key) {
      var name := node.GiName(key, s.gis[key]);
      assert s.Visible(key);
      var uid :| uid in s.claims && s.claims[uid].phase == PrepareCompleted && name in s.claims[uid].Names();
      ListedDeviceIsRecorded(node, s, uid, key);
      assert Owns(node, s, uid, key);
    }
    forall uid, key | uid in s.claims && s.Completed(uid) && key in s.gis && s.gis[key].Visible()
      ensures ListedIsRecorded(node, s, uid, key)
    {
      if node.GiName(key, s.gis[key]) in s.claims[uid].Names() {
        ListedDeviceIsRecorded(node, s, uid, key);
      }
    }
    forall uid, rec | uid in s.claims && s.Completed(uid) && rec in s.claims[uid].Records() && rec.concrete.Key() in s.gis
      ensures RecordNamed(node, s, uid, rec)
    {
      assert RecordOk(node, s, uid, rec);
    }
  }
}
