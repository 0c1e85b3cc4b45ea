/** KV cache pools: the controller binds every claim to a pool that it finds or provisions, and the kubelet
    plugin resolves the pool of a claim again when it prepares it. */
module KvCache {
  import opened Basics
  import opened Decimal
  import opened Configs

  const KV_DRIVER_NAME := "kvcache.nvidia.com"
  const DRAM := "DRAM"
  const HBM := "HBM"

  // -------------------------------------------------------------------- configuration

  datatype PoolConfig = PoolConfig(
    poolName: string, capacityBytes: int, latencyTier: string, engine: string, modelFamily: string, dtype: string,
    blockSizeTokens: int)

  /** The five fields in which a pool and a claim must agree. */
  datatype Keys = Keys(engine: string, modelFamily: string, dtype: string, blockSizeTokens: int, latencyTier: string)

  datatype PoolSpec = PoolSpec(capacityBytes: int, keys: Keys)

  datatype KvObject = IsPoolConfig(config: PoolConfig) | OtherKind

  function KeysOf(c: PoolConfig): Keys {
    Keys(c.engine, c.modelFamily, c.dtype, c.blockSizeTokens, c.latencyTier)
  }

  /** A pool with these keys is one that the configuration asks for. */
  predicate Agrees(k: Keys, c: PoolConfig) {
    && k.engine == c.engine && k.modelFamily == c.modelFamily && k.dtype == c.dtype
    && k.blockSizeTokens == c.blockSizeTokens && k.latencyTier == c.latencyTier
  }

  /** Two configurations have these five fields in common. */
  predicate SameFive(a: PoolConfig, b: PoolConfig) {
    && a.engine == b.engine && a.modelFamily == b.modelFamily && a.dtype == b.dtype
    && a.blockSizeTokens == b.blockSizeTokens && a.latencyTier == b.latencyTier
  }

  function Normalized(c: PoolConfig): PoolConfig {
    if c.latencyTier == "" then c.(latencyTier := DRAM) else c
  }

  predicate IsValid(c: PoolConfig) {
    && c.capacityBytes >= 1
    && c.latencyTier in {DRAM, HBM}
    && c.engine in {"vllm", "trtllm", "sglang"}
    && c.modelFamily != "" && c.dtype != "" && c.blockSizeTokens >= 1
  }

  /** Defaulting is idempotent and fills in exactly the field that an otherwise valid configuration may
      leave out. */
  lemma NormalizedMayBeValid(c: PoolConfig)
    ensures Normalized(Normalized(c)) == Normalized(c)
    ensures IsValid(c) ==> Normalized(c) == c
    ensures IsValid(Normalized(c)) <==> IsValid(c) || (c.latencyTier == "" && IsValid(c.(latencyTier := DRAM)))
  {
  }

  function HashInput(k: Keys): string {
    k.engine + "\0" + k.modelFamily + "\0" + k.dtype + "\0" + PrintInt(k.blockSizeTokens) + "\0" + k.latencyTier
  }

  function DeterministicPoolName(hash: string -> string, k: Keys): string {
    "kvcache-" + k.engine + "-" + hash(HashInput(k))
  }

  /** The pool a configuration asks for: the one it names, or one named after its keys. */
  function NameFor(hash: string -> string, c: PoolConfig): (r: string)
    ensures r != ""
  {
    if c.poolName != "" then c.poolName else DeterministicPoolName(hash, KeysOf(c))
  }

  /** The name that is given, or one made from the five fields. */
  predicate IsNameFor(hash: string -> string, c: PoolConfig, name: string) {
    if c.poolName != "" then name == c.poolName
    else name == "kvcache-" + c.engine + "-" +
                 hash(c.engine + "\0" + c.modelFamily + "\0" + c.dtype + "\0" + PrintInt(c.blockSizeTokens) + "\0" + c.latencyTier)
  }

  lemma NameForIs(hash: string -> string, c: PoolConfig)
    ensures IsNameFor(hash, c, NameFor(hash, c))
  {
  }

  function ResolvedPoolName(c: PoolConfig, annotation: string): Result<string> {
    if c.poolName != "" then Ok(c.poolName) else if annotation != "" then Ok(annotation) else Err(NotFound)
  }

  /** With the name that the controller wrote for `last`, a kubelet that works from `first` resolves that
      same name exactly when `first` names no pool, or names that very one. */
  lemma KubeletAgreesIff(hash: string -> string, first: PoolConfig, last: PoolConfig)
    ensures ResolvedPoolName(first, NameFor(hash, last)) == Ok(NameFor(hash, last)) <==>
            first.poolName == "" || first.poolName == NameFor(hash, last)
  {
  }

  // ------------------------------------------------------------------------ decoding

  /** Entries that are opaque and addressed to this driver. */
  predicate ForKv(c: DeviceAllocationConfiguration) {
    Concerns(KV_DRIVER_NAME, c)
  }

  /** The last pool configuration of a list. */
  function LastPoolConfig(decode: string -> Result<KvObject>, configs: seq<DeviceAllocationConfiguration>): Option<PoolConfig> {
    if configs == [] then None
    else
      var c := configs[|configs| - 1];
      if ForKv(c) && decode(c.parameters.value.raw).Ok? && decode(c.parameters.value.raw).value.IsPoolConfig?
      then Some(decode(c.parameters.value.raw).value.config)
      else LastPoolConfig(decode, configs[..|configs| - 1])
  }

  predicate AllDecode(decode: string -> Result<KvObject>, configs: seq<DeviceAllocationConfiguration>) {
    forall c :: c in configs && ForKv(c) ==> decode(c.parameters.value.raw).Ok?
  }

  /** What the controller works from: the last pool configuration, with defaults, if it is valid and every
      entry for this driver can be decoded. */
  function Target(decode: string -> Result<KvObject>, configs: seq<DeviceAllocationConfiguration>): Result<Option<PoolConfig>> {
    if !AllDecode(decode, configs) then Err(BadConfig)
    else
      var last := LastPoolConfig(decode, configs);
      if last.None? then Ok(None)
      else if IsValid(Normalized(last.value)) then Ok(Some(Normalized(last.value)))
      else Err(BadConfig)
  }

  method DecodeKVCachePoolConfig(decode: string -> Result<KvObject>, configs: seq<DeviceAllocationConfiguration>)
    returns (r: Result<Option<PoolConfig>>)
    ensures r == Target(decode, configs)
    ensures r.Ok? ==> forall c :: c in configs && ForKv(c) ==> decode(c.parameters.value.raw).Ok?
    ensures r == Ok(None) ==> forall c :: c in configs ==> !IsPoolEntry(decode, c)
    ensures r.Ok? && r.value.Some? ==>
              IsUsable(r.value.value) && exists i :: IsLastPoolEntry(decode, configs, i) && r.value.value == WithTier(decode, configs[i])
    ensures r.Err? ==>
              || (exists c :: c in configs && ForKv(c) && decode(c.parameters.value.raw).Err?)
              || (exists i :: IsLastPoolEntry(decode, configs, i) && !IsUsable(WithTier(decode, configs[i])))
  {
    LastPoolConfigIs(decode, configs);
    hide IsValid, Normalized, IsUsable;
    var found: Option<PoolConfig> := None;
    for i := 0 to |configs|
      invariant found == LastPoolConfig(decode, configs[..i]) && AllDecode(decode, configs[..i])
    {
      var c := configs[i];
      assert configs[..i + 1] == configs[..i] + [c] && configs[..i + 1][..i] == configs[..i];
      if c.parameters.None? || c.parameters.value.driver != KV_DRIVER_NAME {
        continue;
      }
      var obj := decode(c.parameters.value.raw);
      if obj.Err? {
        assert c in configs;
        return Err(BadConfig);
      }
      if !obj.value.IsPoolConfig? {
        continue;
      }
      found := Some(obj.value.config);
    }
    assert configs[..|configs|] == configs;
    if found.None? {
      return Ok(None);
    }
    var config := Normalized(found.value);
    ValidIsUsable(found.value);
    if !IsValid(config) {
      return Err(BadConfig);
    }
    return Ok(Some(config));
  }

  predicate IsPoolEntry(decode: string -> Result<KvObject>, c: DeviceAllocationConfiguration) {
    && c.parameters.Some? && c.parameters.value.driver == "kvcache.nvidia.com"
    && decode(c.parameters.value.raw).Ok? && decode(c.parameters.value.raw).value.IsPoolConfig?
  }

  predicate IsLastPoolEntry(decode: string -> Result<KvObject>, configs: seq<DeviceAllocationConfiguration>, i: int) {
    && 0 <= i < |configs| && IsPoolEntry(decode, configs[i])
    && forall k :: i < k < |configs| ==> !IsPoolEntry(decode, configs[k])
  }

  /** The configuration in this entry, with the one default. */
  function WithTier(decode: string -> Result<KvObject>, c: DeviceAllocationConfiguration): PoolConfig
    requires IsPoolEntry(decode, c)
  {
    var own := decode(c.parameters.value.raw).value.config;
    own.(latencyTier := if own.latencyTier == "" then "DRAM" else own.latencyTier)
  }

  predicate IsUsable(c: PoolConfig) {
    && c.capacityBytes >= 1 && c.blockSizeTokens >= 1 && c.modelFamily != "" && c.dtype != ""
    && (c.latencyTier == "DRAM" || c.latencyTier == "HBM")
    && (c.engine == "vllm" || c.engine == "trtllm" || c.engine == "sglang")
  }

  lemma {:induction false} LastPoolConfigIs(decode: string -> Result<KvObject>, configs: seq<DeviceAllocationConfiguration>)
    ensures var own := LastPoolConfig(decode, configs);
            if own.None? then forall c :: c in configs ==> !IsPoolEntry(decode, c)
            else exists i :: IsLastPoolEntry(decode, configs, i) && decode(configs[i].parameters.value.raw).value.config == own.value
  {
    if configs != [] {
      var init, n := configs[..|configs| - 1], |configs| - 1;
      assert configs == init + [configs[n]];
      LastPoolConfigIs(decode, init);
      if IsPoolEntry(decode, configs[n]) {
        assert IsLastPoolEntry(decode, configs, n);
      } else if LastPoolConfig(decode, configs).Some? {
        var i :| IsLastPoolEntry(decode, init, i) && decode(init[i].parameters.value.raw).value.config == LastPoolConfig(decode, init).value;
        assert IsLastPoolEntry(decode, configs, i);
      }
    }
  }

  lemma ValidIsUsable(c: PoolConfig)
    ensures IsValid(Normalized(c)) <==> IsUsable(c.(latencyTier := if c.latencyTier == "" then "DRAM" else c.latencyTier))
    ensures Normalized(c) == c.(latencyTier := if c.latencyTier == "" then "DRAM" else c.latencyTier)
  {
  }

  function PoolNameOr(c: PoolConfig, annotation: string): string {
    if c.poolName != "" then c.poolName else annotation
  }

  predicate IsFirstPool(configs: seq<OpaqueDeviceConfig<KvObject>>, i: int) {
    && 0 <= i < |configs| && configs[i].config.IsPoolConfig?
    && forall k :: 0 <= k < i ==> !configs[k].config.IsPoolConfig?
  }

  /** The first pool configuration of an ordered list. */
  function FirstPoolConfig(configs: seq<OpaqueDeviceConfig<KvObject>>): Option<PoolConfig> {
    if configs == [] then None
    else if configs[0].config.IsPoolConfig? then Some(configs[0].config.config)
    else FirstPoolConfig(configs[1..])
  }

  /** The decoded configurations in the order in which GetOpaqueDeviceConfigs yields them. */
  function InPrecedence(decode: string -> Result<KvObject>, configs: seq<DeviceAllocationConfiguration>)
    : seq<OpaqueDeviceConfig<KvObject>>
  {
    Decoded(decode, KV_DRIVER_NAME, FromSource(FromClass, configs)) + Decoded(decode, KV_DRIVER_NAME, FromSource(FromClaim, configs))
  }

  /** The kubelet's way: classes before claims, and the first pool configuration counts. */
  method ResolveForKubelet(
    decode: string -> Result<KvObject>, granted: seq<DeviceAllocationConfiguration>, annotation: string)
    returns (r: Result<string>)
    ensures r.Ok? <==>
              var own := FirstPoolConfig(InPrecedence(decode, granted));
              && (forall c :: c in granted ==> Acceptable(decode, KV_DRIVER_NAME, c))
              && own.Some? && IsValid(Normalized(own.value)) && (own.value.poolName != "" || annotation != "")
    ensures r.Ok? ==> ResolvedPoolName(Normalized(FirstPoolConfig(InPrecedence(decode, granted)).value), annotation) == r
    ensures r.Ok? ==> exists i :: IsFirstPool(InPrecedence(decode, granted), i) &&
                                  r.value == PoolNameOr(InPrecedence(decode, granted)[i].config.config, annotation)
  {
    hide IsValid;
    var inOrder :- GetOpaqueDeviceConfigs(decode, KV_DRIVER_NAME, granted);
    var found: Option<PoolConfig> := None;
    for i := 0 to |inOrder|
      invariant found.None? && FirstPoolConfig(inOrder) == FirstPoolConfig(inOrder[i..])
      invariant forall k :: 0 <= k < i ==> !inOrder[k].config.IsPoolConfig?
    {
      assert inOrder[i..][1..] == inOrder[i + 1..];
      if inOrder[i].config.IsPoolConfig? {
        found := Some(inOrder[i].config.config);
        break;
      }
    }
    if found.None? {
      return Err(NotFound);
    }
    var config := Normalized(found.value);
    if !IsValid(config) {
      return Err(BadConfig);
    }
    r := ResolvedPoolName(config, annotation);
  }

  /** A claim whose one pool configuration comes with the claim itself. */
  predicate OnlyConfig(decode: string -> Result<KvObject>, spec: seq<DeviceAllocationConfiguration>, c: DeviceAllocationConfiguration) {
    spec == [c] && c.source == FromClaim && ForKv(c) && decode(c.parameters.value.raw).Ok?
  }

  /** With a single configuration both sides work from the same one. */
  lemma SingleConfigIsFirstAndLast(
    decode: string -> Result<KvObject>, spec: seq<DeviceAllocationConfiguration>, c: DeviceAllocationConfiguration)
    requires OnlyConfig(decode, spec, c) && LastPoolConfig(decode, spec).Some?
    ensures FirstPoolConfig(InPrecedence(decode, spec)) == LastPoolConfig(decode, spec)
  {
    assert spec[..0] == [];
    assert LastPoolConfig(decode, spec[..0]) == None;
    assert FromSource(FromClaim, spec[..0]) == [] && FromSource(FromClass, spec[..0]) == [];
    assert FromSource(FromClaim, spec) == [c] && FromSource(FromClass, spec) == [];
    assert [c][..0] == [];
    assert Decoded(decode, KV_DRIVER_NAME, [c]) == [OpaqueDeviceConfig(c.requests, decode(c.parameters.value.raw).value)];
  }

  // -------------------------------------------------------------------------- binding

  type Ref = string

  /** `bound` tells whether the controller wrote the annotation. */
  datatype Claim = Claim(spec: seq<DeviceAllocationConfiguration>, annotation: string, bound: bool)

  /** Pools and claims on the API server, and what was ever read under a claim's name: a reconciler may
      still be at work with any of it, and its patch carries no version. */
  datatype World = World(pools: map<string, PoolSpec>, claims: map<Ref, Claim>, seen: map<Ref, set<PoolConfig>>) {
    function Seen(ref: Ref): set<PoolConfig> {
      if ref in seen then seen[ref] else {}
    }
  }

  /** The fixed parts: the decoder and the hash, any hash. */
  datatype Env = Env(decode: string -> Result<KvObject>, hash: string -> string)

  datatype Step =
    | CreateClaim(ref: Ref, spec: seq<DeviceAllocationConfiguration>, annotation: string)
    | DeleteClaim(ref: Ref)
    | CreatePool(name: string, pool: PoolSpec)
    | Bind(ref: Ref, config: PoolConfig)

  /** A reconciler patches once it has read the claim with `config`, at some time, and has found or created
      a pool of the right name whose keys match. */
  predicate MayBind(env: Env, w: World, ref: Ref, config: PoolConfig) {
    && config in w.Seen(ref)
    && NameFor(env.hash, config) in w.pools && Agrees(w.pools[NameFor(env.hash, config)].keys, config)
  }

  function TargetOf(env: Env, spec: seq<DeviceAllocationConfiguration>): Option<PoolConfig> {
    var t := Target(env.decode, spec);
    if t.Ok? then t.value else None
  }

  function Next(env: Env, w: World, step: Step): Option<World> {
    match step
    case CreateClaim(ref, spec, annotation) =>
      if ref in w.claims then None
      else
        var t := TargetOf(env, spec);
        Some(w.(claims := w.claims[ref := Claim(spec, annotation, false)],
                seen := w.seen[ref := w.Seen(ref) + if t.Some? then {t.value} else {}]))
    case DeleteClaim(ref) => Some(w.(claims := w.claims - {ref}))
    case CreatePool(name, pool) => if name in w.pools then None else Some(w.(pools := w.pools[name := pool]))
    case Bind(ref, config) =>
      if !MayBind(env, w, ref, config) then None
      else if ref !in w.claims then Some(w)
      else Some(w.(claims := w.claims[ref := w.claims[ref].(annotation := NameFor(env.hash, config), bound := true)]))
  }

  function Exec(env: Env, first: World, steps: seq<Step>): Option<World> {
    if steps == [] then Some(first)
    else
      var before := Exec(env, first, steps[..|steps| - 1]);
      if before.None? then None else Next(env, before.value, steps[|steps| - 1])
  }

  /** A claim's name is not used again for a claim with another configuration. */
  ghost predicate Orderly(env: Env, w: World, step: Step) {
    step.CreateClaim? ==> forall c :: c in w.Seen(step.ref) ==> TargetOf(env, step.spec) == Some(c)
  }

  ghost predicate OrderlyRun(env: Env, first: World, steps: seq<Step>) {
    forall i :: 0 <= i < |steps| && Exec(env, first, steps[..i]).Some? ==> Orderly(env, Exec(env, first, steps[..i]).value, steps[i])
  }

  /** The claim names the pool its own configuration asks for, and that pool agrees with it on all keys. */
  ghost predicate BoundRight(env: Env, w: World, ref: Ref)
    requires ref in w.claims
  {
    var t := TargetOf(env, w.claims[ref].spec);
    && t.Some? && w.claims[ref].annotation == NameFor(env.hash, t.value)
    && w.claims[ref].annotation in w.pools && Agrees(w.pools[w.claims[ref].annotation].keys, t.value)
  }

  ghost predicate Inv(env: Env, w: World) {
    && (forall ref :: ref in w.claims && w.claims[ref].bound ==> BoundRight(env, w, ref))
    && (forall ref, c :: ref in w.claims && c in w.Seen(ref) ==> TargetOf(env, w.claims[ref].spec) == Some(c))
  }

  lemma StepKeepsInv(env: Env, w: World, step: Step)
    requires Inv(env, w) && Orderly(env, w, step) && Next(env, w, step).Some?
    ensures Inv(env, Next(env, w, step).value)
  {
    hide TargetOf, NameFor;
    var n := Next(env, w, step).value;
    forall ref | ref in n.claims && n.claims[ref].bound ensures BoundRight(env, n, ref) {
      if step.Bind? && step.ref == ref {
        assert TargetOf(env, w.claims[ref].spec) == Some(step.config);
      } else {
        assert ref in w.claims && BoundRight(env, w, ref);
      }
    }
  }

  lemma {:induction false} InvAlways(env: Env, first: World, steps: seq<Step>)
    requires Exec(env, first, steps).Some? && OrderlyRun(env, first, steps) && Inv(env, first)
    ensures Inv(env, Exec(env, first, steps).value)
  {
    if steps != [] {
      var init := steps[..|steps| - 1];
      forall i | 0 <= i < |init| ensures init[..i] == steps[..i] {
      }
      InvAlways(env, first, init);
      assert Orderly(env, Exec(env, first, init).value, steps[|steps| - 1]);
      StepKeepsInv(env, Exec(env, first, init).value, steps[|steps| - 1]);
    }
  }

  /** Under any interleaving of reconciles, stale and repeated ones included: a claim that the controller
      bound names a pool that agrees with the claim's configuration on all five keys. */
  lemma BoundClaimsNameTheirPool(env: Env, first: World, steps: seq<Step>, ref: Ref)
    requires Exec(env, first, steps).Some? && OrderlyRun(env, first, steps) && Inv(env, first)
    requires ref in Exec(env, first, steps).value.claims && Exec(env, first, steps).value.claims[ref].bound
    ensures BoundRight(env, Exec(env, first, steps).value, ref)
  {
    InvAlways(env, first, steps);
  }

  /** Two bound claims that name one pool have the same engine, model family, type, block size and tier, even if
      the hash maps different ones to one name; and two that have the same and name no pool themselves share
      one. */
  lemma SharingIsByKeys(env: Env, w: World, a: Ref, b: Ref)
    requires Inv(env, w) && a in w.claims && b in w.claims && w.claims[a].bound && w.claims[b].bound
    ensures TargetOf(env, w.claims[a].spec).Some? && TargetOf(env, w.claims[b].spec).Some?
    ensures var ca, cb := TargetOf(env, w.claims[a].spec).value, TargetOf(env, w.claims[b].spec).value;
            && (w.claims[a].annotation == w.claims[b].annotation ==> SameFive(ca, cb))
            && (SameFive(ca, cb) && ca.poolName == "" && cb.poolName == "" ==> w.claims[a].annotation == w.claims[b].annotation)
  {
    assert BoundRight(env, w, a) && BoundRight(env, w, b);
  }

  /** A repeated patch writes the name that is there already. */
  lemma RebindingChangesNothing(env: Env, w: World, ref: Ref, config: PoolConfig)
    requires Inv(env, w) && ref in w.claims && w.claims[ref].bound && MayBind(env, w, ref, config)
    ensures Next(env, w, Bind(ref, config)) == Some(w)
  {
    assert BoundRight(env, w, ref) && TargetOf(env, w.claims[ref].spec) == Some(config);
    assert w.claims[ref].(annotation := NameFor(env.hash, config), bound := true) == w.claims[ref];
    assert w.claims[ref := w.claims[ref]] == w.claims;
  }

  /** The kubelet resolves, for a bound claim with a single configuration, the very pool it is bound to. */
  lemma KubeletResolvesBoundPool(env: Env, w: World, ref: Ref, c: DeviceAllocationConfiguration)
    requires Inv(env, w) && ref in w.claims && w.claims[ref].bound && OnlyConfig(env.decode, w.claims[ref].spec, c)
    ensures var own := FirstPoolConfig(InPrecedence(env.decode, w.claims[ref].spec));
            && own.Some?
            && ResolvedPoolName(Normalized(own.value), w.claims[ref].annotation) == Ok(w.claims[ref].annotation)
  {
    assert BoundRight(env, w, ref);
    SingleConfigIsFirstAndLast(env.decode, w.claims[ref].spec, c);
    var own := FirstPoolConfig(InPrecedence(env.decode, w.claims[ref].spec)).value;
    assert TargetOf(env, w.claims[ref].spec) == Some(Normalized(own));
    hide TargetOf;
    KubeletAgreesIff(env.hash, Normalized(own), Normalized(own));
  }

  /** A patch binds the claim at hand rightly exactly when the configuration the reconciler has read asks
      for the same pool and the same keys as the claim's own. The patch does not check that. */
  lemma PatchBindsRightIff(env: Env, w: World, ref: Ref, config: PoolConfig)
    requires ref in w.claims && MayBind(env, w, ref, config)
    ensures BoundRight(env, Next(env, w, Bind(ref, config)).value, ref) <==>
            var t := TargetOf(env, w.claims[ref].spec);
            t.Some? && NameFor(env.hash, t.value) == NameFor(env.hash, config) && SameFive(t.value, config)
  {
  }

  /** If a claim is deleted and its name taken by one with other keys while a reconcile is under way, the
      late patch binds the new claim to the old claim's pool. */
  lemma ReusedNameIsMisbound(
    env: Env, ref: Ref, old_: seq<DeviceAllocationConfiguration>, new_: seq<DeviceAllocationConfiguration>)
    returns (steps: seq<Step>)
    requires TargetOf(env, old_).Some? && TargetOf(env, new_).Some?
    requires !SameFive(TargetOf(env, old_).value, TargetOf(env, new_).value)
    ensures var w := Exec(env, World(map[], map[], map[]), steps);
            w.Some? && ref in w.value.claims && w.value.claims[ref].bound && !BoundRight(env, w.value, ref)
  {
    hide TargetOf, NameFor;
    var first := World(map[], map[], map[]);
    var c := TargetOf(env, old_).value;
    var name := NameFor(env.hash, c);
    var all := [CreateClaim(ref, old_, ""), CreatePool(name, PoolSpec(c.capacityBytes, KeysOf(c))), DeleteClaim(ref),
                CreateClaim(ref, new_, ""), Bind(ref, c)];
    var w1 := Next(env, first, all[0]).value;
    var w2 := Next(env, w1, all[1]).value;
    var w3 := Next(env, w2, all[2]).value;
    var w4 := Next(env, w3, all[3]).value;
    assert c in w4.Seen(ref);
    assert all[..0] == [] && all[..1][..0] == all[..0] && all[..2][..1] == all[..1] && all[..3][..2] == all[..2];
    assert all[..4][..3] == all[..3] && all[..5][..4] == all[..4] && all[..5] == all;
    assert Exec(env, first, all[..0]) == Some(first);
    assert Exec(env, first, all[..1]) == Some(w1);
    assert Exec(env, first, all[..2]) == Some(w2);
    assert Exec(env, first, all[..3]) == Some(w3);
    assert Exec(env, first, all[..4]) == Some(w4);
    assert Exec(env, first, all[..5]) == Next(env, w4, all[4]);
    PatchBindsRightIff(env, w4, ref, c);
    steps := all;
  }

  // ------------------------------------------------------------------- the reconciler

  const EMPTY := World(map[], map[], map[])

  /** Pools stay as they are, and what has been seen stays seen. */
  ghost predicate Later(w: World, n: World) {
    && (forall name :: name in w.pools ==> name in n.pools && n.pools[name] == w.pools[name])
    && (forall ref :: w.Seen(ref) <= n.Seen(ref))
  }

  lemma NextIsLater(env: Env, w: World, step: Step)
    requires Next(env, w, step).Some?
    ensures Later(w, Next(env, w, step).value)
  {
    hide TargetOf, NameFor;
  }

  lemma {:induction false} ExecIsLater(env: Env, w: World, steps: seq<Step>)
    requires Exec(env, w, steps).Some?
    ensures Later(w, Exec(env, w, steps).value)
  {
    if steps != [] {
      ExecIsLater(env, w, steps[..|steps| - 1]);
      NextIsLater(env, Exec(env, w, steps[..|steps| - 1]).value, steps[|steps| - 1]);
    }
  }

  lemma {:induction false} ExecInTurn(env: Env, w: World, a: seq<Step>, b: seq<Step>)
    requires Exec(env, w, a).Some?
    ensures Exec(env, w, a + b) == Exec(env, Exec(env, w, a).value, b)
  {
    hide Next;
    if b == [] {
      assert a + b == a;
    } else {
      assert (a + b)[..|a + b| - 1] == a + b[..|b| - 1];
      ExecInTurn(env, w, a, b[..|b| - 1]);
    }
  }

  /** What a reader of a claim would decode has been seen under its name. */
  ghost predicate ReadableSeen(env: Env, w: World) {
    forall ref :: ref in w.claims && TargetOf(env, w.claims[ref].spec).Some? ==>
      TargetOf(env, w.claims[ref].spec).value in w.Seen(ref)
  }

  lemma ReadableStaysSeen(env: Env, w: World, step: Step)
    requires ReadableSeen(env, w) && Next(env, w, step).Some?
    ensures ReadableSeen(env, Next(env, w, step).value)
  {
    hide TargetOf, NameFor, KeysOf;
  }

  lemma {:induction false} ReadableIsSeen(env: Env, steps: seq<Step>)
    requires Exec(env, EMPTY, steps).Some?
    ensures ReadableSeen(env, Exec(env, EMPTY, steps).value)
  {
    hide Next, TargetOf;
    if steps != [] {
      ReadableIsSeen(env, steps[..|steps| - 1]);
      ReadableStaysSeen(env, Exec(env, EMPTY, steps[..|steps| - 1]).value, steps[|steps| - 1]);
    }
  }

  class ClaimReconciler {
    const env: Env
    var pools: map<string, PoolSpec>
    var claims: map<Ref, Claim>

    // bookkeeping
    var seen: map<Ref, set<PoolConfig>>
    ghost var steps: seq<Step>

    /** How often a request has failed, or a cache did not know yet what was there. */
    ghost var faults: nat

    function View(): World
      reads this`pools, this`claims, this`seen
    {
      World(pools, claims, seen)
    }

    ghost predicate Valid()
      reads this`pools, this`claims, this`seen, this`steps
    {
      Exec(env, EMPTY, steps) == Some(View())
    }

    constructor (env: Env)
      ensures Valid() && this.env == env && View() == EMPTY && steps == []
    {
      this.env, this.pools, this.claims, this.seen := env, map[], map[], map[];
      this.steps, this.faults := [], 0;
    }

    ghost method Log(step: Step)
      requires Exec(env, EMPTY, steps).Some? && Next(env, Exec(env, EMPTY, steps).value, step) == Some(View())
      modifies this`steps
      ensures Valid() && steps == old(steps) + [step]
    {
      assert (steps + [step])[..|steps|] == steps;
      steps := steps + [step];
    }

    /** Other writers, be they users or other reconciles, do whatever they can do. */
    method OthersAct(others: seq<Step>)
      requires Valid()
      modifies this`pools, this`claims, this`seen, this`steps
      ensures Valid() && Later(old(View()), View())
    {
      var n := Exec(env, View(), others);
      if n.Some? {
        ExecIsLater(env, View(), others);
        ExecInTurn(env, EMPTY, steps, others);
        pools, claims, seen := n.value.pools, n.value.claims, n.value.seen;
        steps := steps + others;
      }
    }

    /** What the pool of that name is worth to this configuration. */
    method CheckPool(name: string, config: PoolConfig) returns (r: Result<string>)
      requires name in pools
      ensures r == if Agrees(pools[name].keys, config) then Ok(name) else Err(Conflict)
    {
      if pools[name].keys != KeysOf(config) {
        return Err(Conflict);
      }
      return Ok(name);
    }

    /** Create; whoever loses the race gets the pool again, from a cache that may not know it yet. */
    method CreatePoolOrLose(name: string, config: PoolConfig) returns (r: Result<string>)
      requires Valid()
      modifies this`pools, this`steps, this`faults
      ensures Valid() && Later(old(View()), View())
      ensures r.Ok? ==> r.value == name && name in pools && Agrees(pools[name].keys, config)
      ensures r.Ok? && name !in old(pools) ==> pools[name].capacityBytes == config.capacityBytes
      ensures faults >= old(faults)
      ensures r.Err? ==> faults > old(faults) || (name in pools && !Agrees(pools[name].keys, config))
      ensures name in old(pools) ==> pools == old(pools)
    {
      hide Exec, TargetOf;
      if * {
        faults := faults + 1;
        return Err(StoreFailure);
      }
      if name in pools {
        if * {
          faults := faults + 1;
          return Err(NotFound);
        }
        r := CheckPool(name, config);
        return;
      }
      pools := pools[name := PoolSpec(config.capacityBytes, KeysOf(config))];
      Log(CreatePool(name, pools[name]));
      return Ok(name);
    }

    /** Gets the pool, from a cache that may not know it yet, or creates it. On success the pool exists under
        this name and its keys match. */
    method GetOrCreatePool(name: string, config: PoolConfig, meanwhile: seq<Step>) returns (r: Result<string>)
      requires Valid()
      modifies this
      ensures Valid() && Later(old(View()), View())
      ensures r.Ok? ==> r.value == name && name in pools && Agrees(pools[name].keys, config)
      ensures name in old(pools) && !Agrees(old(pools)[name].keys, config) ==> r.Err?
      ensures faults >= old(faults)
      ensures r.Err? ==> faults > old(faults) || (name in pools && !Agrees(pools[name].keys, config))
    {
      hide Exec, Next, TargetOf;
      var cached: bool := *;
      if name in pools && cached {
        r := CheckPool(name, config);
        return;
      }
      if * {
        faults := faults + 1;
        return Err(StoreFailure);
      }
      OthersAct(meanwhile);
      r := CreatePoolOrLose(name, config);
    }

    /** The patch names no version, so it applies to whatever claim has the name by now. */
    method Patch(ref: Ref, config: PoolConfig) returns (r: Result<()>)
      requires Valid() && MayBind(env, View(), ref, config)
      modifies this`claims, this`steps, this`faults
      ensures Valid() && faults == old(faults) + if r.Err? then 1 else 0
      ensures r.Ok? ==> claims == if ref in old(claims) then
                  old(claims)[ref := old(claims)[ref].(annotation := NameFor(env.hash, config), bound := true)]
                else old(claims)
      ensures r.Err? ==> claims == old(claims)
      ensures steps == if r.Ok? then old(steps) + [Bind(ref, config)] else old(steps)
    {
      hide NameFor, Exec, TargetOf;
      if * {
        faults := faults + 1;
        return Err(StoreFailure);
      }
      if ref in claims {
        claims := claims[ref := claims[ref].(annotation := NameFor(env.hash, config), bound := true)];
      }
      Log(Bind(ref, config));
      return Ok(());
    }

    method FindPoolAndBind(ref: Ref, config: PoolConfig, before: seq<Step>, during: seq<Step>, after: seq<Step>)
      returns (r: Result<()>)
      requires Valid() && config in View().Seen(ref)
      modifies this
      ensures Valid() && Later(old(View()), View())
      ensures r.Ok? && ref in claims ==> claims[ref].bound && claims[ref].annotation == NameFor(env.hash, config)
      ensures r.Ok? ==> NameFor(env.hash, config) in pools && Agrees(pools[NameFor(env.hash, config)].keys, config)
      ensures r.Err? ==>
                || faults > old(faults)
                || (NameFor(env.hash, config) in pools && !Agrees(pools[NameFor(env.hash, config)].keys, config))
    {
      hide NameFor, Exec, Next, TargetOf, Agrees;
      var name := NameFor(env.hash, config);
      OthersAct(before);
      var pool :- GetOrCreatePool(name, config, during);
      OthersAct(after);
      r := Patch(ref, config);
    }

    /** Reads the claim, perhaps from a cache that lacks the annotation, and binds it. A claim that does
        not concern this driver, or cannot be decoded, is left alone. */
    method Reconcile(ref: Ref, stale: bool, before: seq<Step>, during: seq<Step>, after: seq<Step>) returns (r: Result<()>)
      requires Valid()
      modifies this
      ensures Valid() && Later(old(View()), View())
      ensures (ref !in old(claims) || (old(claims)[ref].annotation != "" && !stale) ||
               TargetOf(env, old(claims)[ref].spec).None?) ==> steps == old(steps) && View() == old(View())
      ensures (r.Ok? && ref in old(claims) && ref in claims && (old(claims)[ref].annotation == "" || stale) &&
               TargetOf(env, old(claims)[ref].spec).Some?) ==>
                && claims[ref].bound
                && IsNameFor(env.hash, TargetOf(env, old(claims)[ref].spec).value, claims[ref].annotation)
                && claims[ref].annotation in pools
                && Agrees(pools[claims[ref].annotation].keys, TargetOf(env, old(claims)[ref].spec).value)
      ensures r.Err? ==>
                && ref in old(claims)
                && var t := Target(env.decode, old(claims)[ref].spec);
                   || faults > old(faults) || t.Err?
                   || (t.value.Some? && exists name :: IsNameFor(env.hash, t.value.value, name) && name in pools &&
                                                       !Agrees(pools[name].keys, t.value.value))
    {
      hide NameFor, Target, Exec, Next, Agrees, IsNameFor;
      if ref !in claims {
        return Ok(());
      }
      var claim := claims[ref];
      var config :- DecodeKVCachePoolConfig(env.decode, claim.spec);
      if config.None? {
        return Ok(());
      }
      if claim.annotation != "" && !stale {
        return Ok(());
      }
      ReadableIsSeen(env, steps);
      NameForIs(env.hash, config.value);
      r := FindPoolAndBind(ref, config.value, before, during, after);
    }
  }
}
