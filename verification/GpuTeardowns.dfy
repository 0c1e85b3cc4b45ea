/** Teardown by recorded ids when NVML may hand out an id again that a checkpointed claim still records. */
module GpuTeardowns {
  import opened Basics
  import opened Claims
  import opened MigNames
  import opened GpuProtocol
  import opened GpuInvariants

  ghost predicate PublishedRun(node: Node, r: Run) {
    match r
    case Begin(_) => true
    case Then(before, step, _) => PublishedRun(node, before) && (step.WriteStarted? ==> Published(node, step.claim.results))
  }

  /** The guarantee: devices of completed claims are live until their own teardown begins. */
  ghost predicate AllLive(node: Node, s: State) {
    forall uid, rec ::
      (uid in s.claims && s.Completed(uid) && uid !in s.begun && rec in s.claims[uid].Records()) ==> Live(node, s, rec)
  }

  ghost predicate Held(node: Node, s: State, uid: Uid, rec: PreparedMigDevice)
    requires uid in s.claims
  {
    var key := rec.concrete.Key();
    && rec.device.deviceName in s.claims[uid].Names() && Live(node, s, rec)
    && key in s.made && s.made[key] == uid
  }

  ghost predicate HeldInv(node: Node, s: State) {
    && (forall uid :: uid in s.claims ==> Published(node, s.claims[uid].results))
    && (forall uid, rec ::
          (uid in s.claims && s.Completed(uid) && uid !in s.begun && rec in s.claims[uid].Records()) ==> Held(node, s, uid, rec))
  }

  predicate IsOwnTeardown(l: Label) {
    (l.DestroyCi? || l.DestroyGi?) && l.cause.OwnUnprepare?
  }

  /** A claim's teardown reaches, by an id on its record, what another completed claim has on record. */
  ghost predicate HitsOther(s: State, l: Label) {
    IsOwnTeardown(l) &&
    exists v :: v in s.claims && v != l.cause.uid && s.Completed(v) && v !in s.begun && s.claims[v].RecordsKey(l.key)
  }

  ghost predicate SpareOthers(r: Run) {
    match r
    case Begin(_) => true
    case Then(before, step, _) => SpareOthers(before) && !HitsOther(before.s, step)
  }

  /** Every teardown destroys what was made for the claim itself, which is what comparing the recorded UUID
      with that of the device would establish. */
  ghost predicate DestroyOwnDevices(r: Run) {
    match r
    case Begin(_) => true
    case Then(before, step, _) =>
      DestroyOwnDevices(before) &&
      (IsOwnTeardown(step) ==> step.key in before.s.made && before.s.made[step.key] == step.cause.uid)
  }

  // ---------------------------------------------------------------------------- steps

  lemma TeardownSparesHeld(node: Node, s: State, l: Label, uid: Uid, rec: PreparedMigDevice)
    requires ValidNode(node) && NeverMisled(node) && HeldInv(node, s)
    requires (l.DestroyCi? || l.DestroyGi?) && Enabled(node, s, l) && !HitsOther(s, l)
    requires uid in s.claims && s.Completed(uid) && uid !in s.begun && rec in s.claims[uid].Records()
    ensures rec.concrete.Key() != l.key
  {
    assert Held(node, s, uid, rec);
    HeldNameIsListed(node, s, uid, rec);
    hide ListedIn;
    match l.cause
    case Rollback(u, device) =>
      if rec.concrete.Key() == l.key {
        RollbackFindsNoHeldDevice(node, s, u, device, l.key, rec.device.deviceName);
      }
    case OwnUnprepare(u) =>
      assert rec.concrete.Key() == l.key ==> s.claims[uid].RecordsKey(l.key);
    case StartupSweep =>
  }

  lemma HeldNameIsListed(node: Node, s: State, uid: Uid, rec: PreparedMigDevice)
    requires ValidNode(node) && uid in s.claims && s.Completed(uid) && Held(node, s, uid, rec)
    ensures s.ListedByCompleted(rec.device.deviceName)
    ensures node.GiName(rec.concrete.Key(), s.gis[rec.concrete.Key()]) == rec.device.deviceName
  {
    CreatedFromName(node, rec.device.deviceName, rec.concrete.Key(), s.gis[rec.concrete.Key()]);
  }

  lemma StaysHeld(node: Node, s: State, l: Label, uid: Uid, rec: PreparedMigDevice)
    requires ValidNode(node) && NeverMisled(node) && HeldInv(node, s) && Enabled(node, s, l) && !HitsOther(s, l)
    requires var t := Apply(s, l);
             uid in t.claims && t.Completed(uid) && uid !in t.begun && rec in t.claims[uid].Records()
    ensures Held(node, Apply(s, l), uid, rec)
  {
    if l.WriteCompleted? && l.uid == uid {
      assert RecordMade(node, s, uid, rec);
    } else {
      assert s.Completed(uid) && uid !in s.begun && rec in s.claims[uid].Records();
      assert Held(node, s, uid, rec);
      if l.DestroyCi? || l.DestroyGi? {
        TeardownSparesHeld(node, s, l, uid, rec);
      }
    }
  }

  lemma HeldInvStep(node: Node, s: State, l: Label)
    requires ValidNode(node) && NeverMisled(node) && HeldInv(node, s) && Enabled(node, s, l) && !HitsOther(s, l)
    requires l.WriteStarted? ==> Published(node, l.claim.results)
    ensures HeldInv(node, Apply(s, l))
  {
    hide ValidNode, NeverMisled, Held;
    var t := Apply(s, l);
    forall uid, rec | uid in t.claims && t.Completed(uid) && uid !in t.begun && rec in t.claims[uid].Records()
      ensures Held(node, t, uid, rec)
    {
      StaysHeld(node, s, l, uid, rec);
    }
    forall uid | uid in t.claims ensures Published(node, t.claims[uid].results) {
      assert l.WriteCompleted? && l.uid == uid ==> t.claims[uid].results == s.claims[uid].results;
    }
  }

  /** A step that hits another claim costs that claim its device. */
  lemma HitIsLoss(node: Node, s: State, l: Label)
    requires HeldInv(node, s) && Enabled(node, s, l) && AllLive(node, Apply(s, l))
    ensures !HitsOther(s, l)
  {
    if IsOwnTeardown(l) {
      var t := Apply(s, l);
      forall v | v in s.claims && v != l.cause.uid && s.Completed(v) && v !in s.begun ensures !s.claims[v].RecordsKey(l.key) {
        forall rec | rec in s.claims[v].Records() ensures rec.concrete.Key() != l.key {
          assert Held(node, s, v, rec) && Live(node, t, rec);
        }
      }
    }
  }

  // ------------------------------------------------------------------------- over runs

  lemma {:induction false} SparingRunHolds(node: Node, r: Run)
    requires ValidNode(node) && NeverMisled(node) && IsRun(node, r) && PublishedRun(node, r)
    requires HeldInv(node, First(r)) && SpareOthers(r)
    ensures HeldInv(node, r.s) && AllLive(node, r.s)
  {
    if r.Then? {
      SparingRunHolds(node, r.before);
      HeldInvStep(node, r.before.s, r.step);
    }
    assert forall uid, rec ::
      (uid in r.s.claims && r.s.Completed(uid) && uid !in r.s.begun && rec in r.s.claims[uid].Records()) ==>
        Held(node, r.s, uid, rec);
  }

  lemma {:induction false} SparingUpTo(node: Node, prefix: Run, r: Run)
    requires IsRun(node, r) && PublishedRun(node, r) && SpareOthers(r) && Extends(prefix, r)
    ensures IsRun(node, prefix) && PublishedRun(node, prefix) && SpareOthers(prefix) && First(prefix) == First(r)
  {
    if prefix != r {
      SparingUpTo(node, prefix, r.before);
    }
  }

  lemma {:induction false} LiveRunSpares(node: Node, r: Run)
    requires ValidNode(node) && NeverMisled(node) && IsRun(node, r) && PublishedRun(node, r) && HeldInv(node, First(r))
    requires forall p :: Extends(p, r) ==> AllLive(node, p.s)
    ensures SpareOthers(r)
  {
    if r.Then? {
      forall p | Extends(p, r.before) ensures AllLive(node, p.s) {
        assert Extends(p, r);
      }
      LiveRunSpares(node, r.before);
      SparingRunHolds(node, r.before);
      assert Extends(r, r);
      HitIsLoss(node, r.before.s, r.step);
    }
  }

  /** With ids that may be handed out again: the devices of completed claims stay live all along a run
      exactly when no teardown in it reaches what another completed claim has on record. */
  lemma LiveIffTeardownsSpareOthers(node: Node, r: Run)
    requires ValidNode(node) && NeverMisled(node) && IsRun(node, r) && PublishedRun(node, r) && HeldInv(node, First(r))
    ensures (forall p :: Extends(p, r) ==> AllLive(node, p.s)) <==> SpareOthers(r)
  {
    if SpareOthers(r) {
      forall p | Extends(p, r) ensures AllLive(node, p.s) {
        SparingUpTo(node, p, r);
        SparingRunHolds(node, p);
      }
    }
    if forall p :: Extends(p, r) ==> AllLive(node, p.s) {
      LiveRunSpares(node, r);
    }
  }

  /** The comparison of UUIDs that the teardown leaves out would make up for reissued ids. */
  lemma {:induction false} OwnDevicesSuffice(node: Node, r: Run)
    requires ValidNode(node) && NeverMisled(node) && IsRun(node, r) && PublishedRun(node, r) && HeldInv(node, First(r))
    requires DestroyOwnDevices(r)
    ensures SpareOthers(r)
  {
    if r.Then? {
      OwnDevicesSuffice(node, r.before);
      SparingRunHolds(node, r.before);
      OwnDeviceIsNoHit(node, r.before.s, r.step);
    }
  }

  lemma OwnDeviceIsNoHit(node: Node, s: State, l: Label)
    requires HeldInv(node, s) && (IsOwnTeardown(l) ==> l.key in s.made && s.made[l.key] == l.cause.uid)
    ensures !HitsOther(s, l)
  {
    if IsOwnTeardown(l) {
      forall v | v in s.claims && v != l.cause.uid && s.Completed(v) && v !in s.begun ensures !s.claims[v].RecordsKey(l.key) {
        forall rec | rec in s.claims[v].Records() ensures rec.concrete.Key() != l.key {
          assert Held(node, s, v, rec);
        }
      }
    }
  }
}
