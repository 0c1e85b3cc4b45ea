/** The checkpoint file: two versions of the same claims side by side, each under its own checksum. */
module Checkpoints {
  import opened Basics
  import opened Claims
  import opened GpuProtocol

  datatype ClaimV1 = ClaimV1(results: seq<AllocationResult>, devices: PreparedDevices)

  type ClaimsV1 = map<Uid, ClaimV1>
  type ClaimsV2 = map<Uid, PreparedClaim>

  // ------------------------------------------------------------------- conversions

  function Upgraded(c: ClaimV1): PreparedClaim {
    PreparedClaim(PrepareCompleted, c.results, c.devices, "", "")
  }

  function UpgradeAll(claims: ClaimsV1): ClaimsV2 {
    map uid <- claims :: Upgraded(claims[uid])
  }

  function DowngradeAll(claims: ClaimsV2): ClaimsV1 {
    map uid | uid in claims && claims[uid].phase == PrepareCompleted :: ClaimV1(claims[uid].results, claims[uid].devices)
  }

  /** Going up and down again loses nothing. */
  lemma UpThenDown(claims: ClaimsV1)
    ensures DowngradeAll(UpgradeAll(claims)) == claims
  {
    assert forall uid :: uid in claims ==> DowngradeAll(UpgradeAll(claims))[uid] == claims[uid];
  }

  /** Going down and up again keeps exactly the completed claims, without their names. */
  lemma DownThenUp(claims: ClaimsV2)
    ensures UpgradeAll(DowngradeAll(claims)) ==
            map uid | uid in claims && claims[uid].phase == PrepareCompleted :: claims[uid].(name := "", namespace_ := "")
  {
  }

  /** Nothing is lost on the way down and up exactly when all claims are completed and nameless, as
      Prepare leaves them. */
  lemma DownThenUpIsIdentityIff(claims: ClaimsV2)
    ensures UpgradeAll(DowngradeAll(claims)) == claims <==>
            forall uid :: uid in claims ==>
              claims[uid].phase == PrepareCompleted && claims[uid].name == "" && claims[uid].namespace_ == ""
  {
    DownThenUp(claims);
    if UpgradeAll(DowngradeAll(claims)) == claims {
      forall uid | uid in claims
        ensures claims[uid].phase == PrepareCompleted && claims[uid].name == "" && claims[uid].namespace_ == ""
      {
        assert uid in UpgradeAll(DowngradeAll(claims));
      }
    }
  }

  // ----------------------------------------------------------------- values and bytes

  /** A nil map is `None`. It is encoded like an empty one, and an empty one is decoded as nil. */
  datatype V1Value = V1Value(preparedClaims: Option<ClaimsV1>)
  datatype V2Value = V2Value(checksum: nat, preparedClaims: Option<ClaimsV2>)
  datatype FileValue = FileValue(checksum: nat, v1: Option<V1Value>, v2: Option<V2Value>)

  function CanonV1(v: V1Value): V1Value {
    if v.preparedClaims == Some(map[]) then V1Value(None) else v
  }

  function CanonV2(v: V2Value): V2Value {
    if v.preparedClaims == Some(map[]) then v.(preparedClaims := None) else v
  }

  function Canon(f: FileValue): FileValue {
    FileValue(f.checksum,
              if f.v1.Some? then Some(CanonV1(f.v1.value)) else None,
              if f.v2.Some? then Some(CanonV2(f.v2.value)) else None)
  }

  /** JSON and the hash, left abstract. */
  datatype Codec = Codec(
    encode: FileValue -> string, decode: string -> Result<FileValue>, encodeV2: V2Value -> string, hash: string -> nat)

  ghost predicate Faithful(codec: Codec) {
    && (forall f :: codec.decode(codec.encode(f)) == Ok(Canon(f)))
    && (forall f, g :: Canon(f) == Canon(g) ==> codec.encode(f) == codec.encode(g))
    && (forall v, w :: CanonV2(v) == CanonV2(w) ==> codec.encodeV2(v) == codec.encodeV2(w))
  }

  function ChecksumV1(codec: Codec, f: FileValue): nat {
    codec.hash(codec.encode(f.(checksum := 0, v2 := None)))
  }

  function ChecksumV2(codec: Codec, v: V2Value): nat {
    codec.hash(codec.encodeV2(v.(checksum := 0)))
  }

  predicate VerifiesV1(codec: Codec, f: FileValue) {
    f.checksum == ChecksumV1(codec, f)
  }

  predicate VerifiesV2(codec: Codec, f: FileValue) {
    f.v2.Some? ==> f.v2.value.checksum == ChecksumV2(codec, f.v2.value)
  }

  /** The claims of the latest version that a file holds. */
  function Latest(f: FileValue): ClaimsV2 {
    if f.v2.Some? then (if f.v2.value.preparedClaims.Some? then f.v2.value.preparedClaims.value else map[])
    else if f.v1.Some? then UpgradeAll(if f.v1.value.preparedClaims.Some? then f.v1.value.preparedClaims.value else map[])
    else map[]
  }

  /** What is written for these claims. */
  function Written(codec: Codec, claims: ClaimsV2): FileValue {
    var v2 := V2Value(0, Some(claims));
    var f := FileValue(0, Some(V1Value(Some(DowngradeAll(claims)))), Some(v2.(checksum := ChecksumV2(codec, v2))));
    f.(checksum := ChecksumV1(codec, f))
  }

  /** A driver that knows the first version only: its struct has no second member. */
  function SeenByV1Reader(f: FileValue): ClaimsV1 {
    if f.v1.Some? && f.v1.value.preparedClaims.Some? then f.v1.value.preparedClaims.value else map[]
  }

  /** What was written passes both checks when it is read back, whatever the hash; the reader finds the
      claims that were written, and a reader of the first version finds the completed ones. */
  lemma WrittenIsReadBack(codec: Codec, claims: ClaimsV2)
    requires Faithful(codec)
    ensures var r := codec.decode(codec.encode(Written(codec, claims)));
            && r.Ok? && VerifiesV1(codec, r.value) && VerifiesV2(codec, r.value)
            && Latest(r.value) == claims
            && SeenByV1Reader(r.value) == DowngradeAll(claims)
            && VerifiesV1(codec, r.value.(v2 := None))
  {
    var f := Written(codec, claims);
    var g := codec.decode(codec.encode(f)).value;
    assert g == Canon(f);
    assert Canon(g.(checksum := 0, v2 := None)) == Canon(f.(checksum := 0, v2 := None));
    assert CanonV2(g.v2.value.(checksum := 0)) == CanonV2(f.v2.value.(checksum := 0));
  }

  ghost predicate Injective(codec: Codec) {
    && (forall a, b :: codec.hash(a) == codec.hash(b) ==> a == b)
    && (forall f, g :: codec.encode(f) == codec.encode(g) ==> Canon(f) == Canon(g))
    && (forall v, w :: codec.encodeV2(v) == codec.encodeV2(w) ==> CanonV2(v) == CanonV2(w))
  }

  /** Unless the hash collides, whoever changes the claims of a file but not its sums is found out: two files
      that pass the checks under the same sums hold the same claims, for readers of either version. */
  lemma TamperingIsNoticed(codec: Codec, f: FileValue, g: FileValue)
    requires Injective(codec) && f.v2.Some? && g.v2.Some?
    requires VerifiesV1(codec, f) && VerifiesV2(codec, f) && VerifiesV1(codec, g) && VerifiesV2(codec, g)
    requires f.checksum == g.checksum && f.v2.value.checksum == g.v2.value.checksum
    ensures Latest(f) == Latest(g) && SeenByV1Reader(f) == SeenByV1Reader(g)
  {
    var f1, g1 := f.(checksum := 0, v2 := None), g.(checksum := 0, v2 := None);
    assert Canon(f1) == Canon(g1);
    assert CanonV2(f.v2.value.(checksum := 0)) == CanonV2(g.v2.value.(checksum := 0));
  }

  // -------------------------------------------------------------------------- objects

  class CheckpointV1 {
    var preparedClaims: Option<ClaimsV1>

    constructor (preparedClaims: Option<ClaimsV1>)
      ensures this.preparedClaims == preparedClaims
    {
      this.preparedClaims := preparedClaims;
    }

    function Value(): V1Value
      reads this
    {
      V1Value(preparedClaims)
    }

    method ToV2() returns (v2: CheckpointV2)
      ensures fresh(v2)
      ensures v2.Value() == V2Value(0, Some(UpgradeAll(if preparedClaims.Some? then preparedClaims.value else map[])))
      ensures preparedClaims.Some? ==>
                && v2.preparedClaims.Some? && v2.preparedClaims.value.Keys == preparedClaims.value.Keys
                && forall uid :: uid in preparedClaims.value ==>
                     v2.preparedClaims.value[uid] ==
                     PreparedClaim(PrepareCompleted, preparedClaims.value[uid].results, preparedClaims.value[uid].devices, "", "")
    {
      var claims: ClaimsV1 := if preparedClaims.Some? then preparedClaims.value else map[];
      var uids := claims.Keys;
      var upgraded: ClaimsV2 := map[];
      while uids != {}
        invariant uids <= claims.Keys && upgraded.Keys == claims.Keys - uids
        invariant forall uid :: uid in upgraded ==> upgraded[uid] == Upgraded(claims[uid])
      {
        var uid :| uid in uids;
        uids := uids - {uid};
        upgraded := upgraded[uid := Upgraded(claims[uid])];
      }
      assert upgraded == UpgradeAll(claims);
      v2 := new CheckpointV2(0, Some(upgraded));
    }
  }

  class CheckpointV2 {
    var checksum: nat
    var preparedClaims: Option<ClaimsV2>

    constructor (checksum: nat, preparedClaims: Option<ClaimsV2>)
      ensures this.checksum == checksum && this.preparedClaims == preparedClaims
    {
      this.checksum, this.preparedClaims := checksum, preparedClaims;
    }

    function Value(): V2Value
      reads this
    {
      V2Value(checksum, preparedClaims)
    }

    method ToV1() returns (v1: CheckpointV1)
      ensures fresh(v1)
      ensures v1.preparedClaims == Some(DowngradeAll(if preparedClaims.Some? then preparedClaims.value else map[]))
      ensures preparedClaims.Some? ==>
                v1.preparedClaims.value ==
                map uid | uid in preparedClaims.value && preparedClaims.value[uid].phase == PrepareCompleted ::
                  ClaimV1(preparedClaims.value[uid].results, preparedClaims.value[uid].devices)
    {
      var claims: ClaimsV2 := if preparedClaims.Some? then preparedClaims.value else map[];
      var uids := claims.Keys;
      var kept: ClaimsV1 := map[];
      while uids != {}
        invariant uids <= claims.Keys
        invariant forall uid :: uid in kept <==> uid in claims && uid !in uids && claims[uid].phase == PrepareCompleted
        invariant forall uid :: uid in kept ==> kept[uid] == ClaimV1(claims[uid].results, claims[uid].devices)
      {
        var uid :| uid in uids;
        uids := uids - {uid};
        if claims[uid].phase != PrepareCompleted {
          continue;
        }
        kept := kept[uid := ClaimV1(claims[uid].results, claims[uid].devices)];
      }
      assert kept == DowngradeAll(claims);
      v1 := new CheckpointV1(Some(kept));
    }
  }

  class Checkpoint {
    var checksum: nat
    var v1: CheckpointV1?
    var v2: CheckpointV2?

    constructor (checksum: nat, v1: CheckpointV1?, v2: CheckpointV2?)
      ensures this.checksum == checksum && this.v1 == v1 && this.v2 == v2
    {
      this.checksum, this.v1, this.v2 := checksum, v1, v2;
    }

    function Value(): FileValue
      reads this, v1, v2
    {
      FileValue(checksum,
                if v1 == null then None else Some(v1.Value()),
                if v2 == null then None else Some(v2.Value()))
    }

    /** The object of the second version is shared with this checkpoint, not copied. */
    method ToLatestVersion() returns (latest: Checkpoint)
      modifies v2
      ensures fresh(latest) && latest.v1 == null && latest.v2 != null && latest.checksum == 0
      ensures if old(v2) != null then latest.v2 == old(v2) && v2.checksum == old(v2.checksum) else fresh(latest.v2)
      ensures latest.v2.preparedClaims == Some(old(Latest(Value())))
    {
      latest := new Checkpoint(0, null, null);
      if v2 != null {
        latest.v2 := v2;
      } else if v1 != null {
        latest.v2 := v1.ToV2();
      } else {
        latest.v2 := new CheckpointV2(0, None);
      }
      if latest.v2.preparedClaims.None? {
        latest.v2.preparedClaims := Some(map[]);
      }
    }

    /** Hides the second version while the first one is summed up, and puts it back. */
    method SetChecksumV1(codec: Codec)
      modifies this
      ensures v1 == old(v1) && v2 == old(v2)
      ensures Value() == old(Value()).(checksum := ChecksumV1(codec, old(Value())))
    {
      var hidden := v2;
      v2 := null;
      checksum := 0;
      var sum := codec.hash(codec.encode(Value()));
      assert Value() == old(Value()).(checksum := 0, v2 := None);
      checksum := sum;
      v2 := hidden;
    }

    method SetChecksumV2(codec: Codec)
      requires v2 != null
      modifies v2
      ensures v2.Value() == old(v2.Value()).(checksum := ChecksumV2(codec, old(v2.Value())))
    {
      v2.checksum := 0;
      v2.checksum := codec.hash(codec.encodeV2(v2.Value()));
    }

    method VerifyChecksumV1(codec: Codec) returns (ok: bool)
      modifies this
      ensures ok <==> VerifiesV1(codec, old(Value()))
      ensures v1 == old(v1) && v2 == old(v2) && Value() == old(Value())
    {
      var ck, hidden := checksum, v2;
      v2 := null;
      checksum := 0;
      assert Value() == old(Value()).(checksum := 0, v2 := None);
      ok := ck == codec.hash(codec.encode(Value()));
      checksum, v2 := ck, hidden;
    }

    method VerifyChecksumV2(codec: Codec) returns (ok: bool)
      modifies v2
      ensures ok <==> VerifiesV2(codec, old(Value()))
      ensures Value() == old(Value())
    {
      if v2 == null {
        return true;
      }
      var ck := v2.checksum;
      v2.checksum := 0;
      ok := ck == codec.hash(codec.encodeV2(v2.Value()));
      v2.checksum := ck;
    }

    method VerifyChecksum(codec: Codec) returns (ok: bool)
      modifies this, v2
      ensures ok <==> VerifiesV1(codec, old(Value())) && VerifiesV2(codec, old(Value()))
      ensures v1 == old(v1) && v2 == old(v2) && Value() == old(Value())
    {
      ok := VerifyChecksumV1(codec);
      if ok {
        ok := VerifyChecksumV2(codec);
      }
    }

    /** Writes this checkpoint's claims in both versions. The shared object of the second version is left
        with its claims and its new checksum; nothing else of this checkpoint changes. */
    method MarshalCheckpoint(codec: Codec) returns (bytes: string)
      modifies v2
      ensures bytes == codec.encode(Written(codec, old(Latest(Value()))))
      ensures v2 != null ==> v2.Value() == Written(codec, old(Latest(Value()))).v2.value
    {
      ghost var claims := Latest(Value());
      var cp := ToLatestVersion();
      cp.v1 := cp.v2.ToV1();
      cp.SetChecksumV1(codec);
      ghost var sum := cp.checksum;
      assert sum == ChecksumV1(codec, FileValue(0, Some(V1Value(Some(DowngradeAll(claims)))), None));
      cp.SetChecksumV2(codec);
      assert cp.v2.Value() == Written(codec, claims).v2.value;
      assert cp.Value() == Written(codec, claims);
      bytes := codec.encode(cp.Value());
    }
  }

  /** Reading a file: decode, check both sums, bring to the latest version. */
  method GetCheckpoint(codec: Codec, bytes: string) returns (r: Result<ClaimsV2>)
    ensures r.Ok? <==> var f := codec.decode(bytes); f.Ok? && VerifiesV1(codec, f.value) && VerifiesV2(codec, f.value)
    ensures r.Ok? ==> r.value == Latest(codec.decode(bytes).value)
    // the sums: of everything but the second version, and of the second version, each without its sum
    ensures r.Ok? ==> var f := codec.decode(bytes).value;
              && f.checksum == codec.hash(codec.encode(FileValue(0, f.v1, None)))
              && (f.v2.Some? ==> f.v2.value.checksum == codec.hash(codec.encodeV2(V2Value(0, f.v2.value.preparedClaims))))
    ensures r.Err? && codec.decode(bytes).Ok? ==> var f := codec.decode(bytes).value;
              || f.checksum != codec.hash(codec.encode(FileValue(0, f.v1, None)))
              || (f.v2.Some? && f.v2.value.checksum != codec.hash(codec.encodeV2(V2Value(0, f.v2.value.preparedClaims))))
    // the claims: those of the second version if there is one, else those of the first, as completed
    ensures r.Ok? && codec.decode(bytes).value.v2.Some? ==>
              var held := codec.decode(bytes).value.v2.value.preparedClaims;
              r.value == if held.Some? then held.value else map[]
    ensures r.Ok? && codec.decode(bytes).value.v2.None? ==>
              var held := codec.decode(bytes).value.v1;
              if held.None? || held.value.preparedClaims.None? then r.value == map[]
              else r.value == map uid <- held.value.preparedClaims.value ::
                     PreparedClaim(PrepareCompleted, held.value.preparedClaims.value[uid].results,
                                   held.value.preparedClaims.value[uid].devices, "", "")
  {
    var f := codec.decode(bytes);
    if f.Err? {
      return Err(StoreFailure);
    }
    var v1: CheckpointV1? := null;
    var v2: CheckpointV2? := null;
    if f.value.v1.Some? {
      v1 := new CheckpointV1(f.value.v1.value.preparedClaims);
    }
    if f.value.v2.Some? {
      v2 := new CheckpointV2(f.value.v2.value.checksum, f.value.v2.value.preparedClaims);
    }
    var cp := new Checkpoint(f.value.checksum, v1, v2);
    assert cp.Value() == f.value;
    var ok := cp.VerifyChecksum(codec);
    if !ok {
      return Err(StoreFailure);
    }
    var latest := cp.ToLatestVersion();
    return Ok(latest.v2.preparedClaims.value);
  }
}
