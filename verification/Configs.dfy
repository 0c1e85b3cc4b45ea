/** Which opaque configuration applies to which allocated device. */
module Configs {
  import opened Basics
  import opened Claims

  datatype ConfigSource = FromClass | FromClaim | UnknownSource

  datatype OpaqueParameters = OpaqueParameters(driver: string, raw: string)

  datatype DeviceAllocationConfiguration = DeviceAllocationConfiguration(
    source: ConfigSource, requests: seq<string>, parameters: Option<OpaqueParameters>)

  datatype OpaqueDeviceConfig<C> = OpaqueDeviceConfig(requests: seq<string>, config: C)

  // --------------------------------------------------- GetOpaqueDeviceConfigs

  function FromSource(source: ConfigSource, configs: seq<DeviceAllocationConfiguration>)
    : seq<DeviceAllocationConfiguration>
  {
    if configs == [] then []
    else
      var init := FromSource(source, configs[..|configs| - 1]);
      var last := configs[|configs| - 1];
      if last.source == source then init + [last] else init
  }

  predicate Concerns(driverName: string, c: DeviceAllocationConfiguration) {
    c.parameters.Some? && c.parameters.value.driver == driverName
  }

  /** The decoded configurations of one driver, in the order given. */
  function Decoded<C>(decode: string -> Result<C>, driverName: string, configs: seq<DeviceAllocationConfiguration>)
    : seq<OpaqueDeviceConfig<C>>
  {
    if configs == [] then []
    else
      var init := Decoded(decode, driverName, configs[..|configs| - 1]);
      var last := configs[|configs| - 1];
      if Concerns(driverName, last) && decode(last.parameters.value.raw).Ok?
      then init + [OpaqueDeviceConfig(last.requests, decode(last.parameters.value.raw).value)]
      else init
  }

  predicate Acceptable<C>(decode: string -> Result<C>, driverName: string, c: DeviceAllocationConfiguration) {
    && !c.source.UnknownSource?
    && c.parameters.Some?
    && (Concerns(driverName, c) ==> decode(c.parameters.value.raw).Ok?)
  }

  lemma {:induction false} FromSourceMembers(source: ConfigSource, configs: seq<DeviceAllocationConfiguration>)
    ensures forall c :: c in FromSource(source, configs) <==> c in configs && c.source == source
  {
    if configs != [] {
      FromSourceMembers(source, configs[..|configs| - 1]);
      assert configs == configs[..|configs| - 1] + [configs[|configs| - 1]];
    }
  }

  lemma {:induction false} DecodedConcat<C>(
    decode: string -> Result<C>, driverName: string,
    a: seq<DeviceAllocationConfiguration>, b: seq<DeviceAllocationConfiguration>)
    ensures Decoded(decode, driverName, a + b) == Decoded(decode, driverName, a) + Decoded(decode, driverName, b)
  {
    if b == [] {
      assert a + b == a;
    } else {
      assert (a + b)[..|a + b| - 1] == a + b[..|b| - 1];
      DecodedConcat(decode, driverName, a, b[..|b| - 1]);
    }
  }

  predicate IsDecodedFrom<C(==)>(
    decode: string -> Result<C>, driverName: string, c: DeviceAllocationConfiguration, o: OpaqueDeviceConfig<C>)
  {
    && c.parameters.Some? && c.parameters.value.driver == driverName
    && decode(c.parameters.value.raw) == Ok(o.config) && o.requests == c.requests
  }

  /** What is in position `i` of the outcome was decoded from the entry in position `src[i]` of the list. */
  ghost predicate DecodedFrom<C(!new)>(
    decode: string -> Result<C>, driverName: string, configs: seq<DeviceAllocationConfiguration>, src: seq<nat>,
    out: seq<OpaqueDeviceConfig<C>>)
  {
    && |src| == |out|
    && forall i :: 0 <= i < |src| ==> src[i] < |configs| && IsDecodedFrom(decode, driverName, configs[src[i]], out[i])
  }

  /** Classes come first, and within one source the list decides. */
  predicate Precedes(configs: seq<DeviceAllocationConfiguration>, a: nat, b: nat) {
    && a < |configs| && b < |configs|
    && if configs[a].source == configs[b].source then a < b else configs[a].source == FromClass && configs[b].source == FromClaim
  }

  /** Every entry of this driver is there once, in order of precedence. */
  ghost predicate IsPrecedence<C(!new)>(
    decode: string -> Result<C>, driverName: string, configs: seq<DeviceAllocationConfiguration>, src: seq<nat>,
    out: seq<OpaqueDeviceConfig<C>>)
  {
    && DecodedFrom(decode, driverName, configs, src, out)
    && (forall i, k :: 0 <= i < k < |src| ==> Precedes(configs, src[i], src[k]))
    && (forall p :: 0 <= p < |configs| && Concerns(driverName, configs[p]) ==> p in src)
  }

  /** The entries of one source that are this driver's, in the order of the list. */
  ghost predicate ListsSource(
    driverName: string, configs: seq<DeviceAllocationConfiguration>, source: ConfigSource, src: seq<nat>)
  {
    && (forall i :: 0 <= i < |src| ==> src[i] < |configs| && configs[src[i]].source == source)
    && (forall i, k :: 0 <= i < k < |src| ==> src[i] < src[k])
    && (forall p: nat :: p < |configs| && configs[p].source == source && Concerns(driverName, configs[p]) ==> p in src)
  }

  lemma {:induction false} SourceOf<C(!new)>(
    decode: string -> Result<C>, driverName: string, configs: seq<DeviceAllocationConfiguration>, source: ConfigSource)
    returns (src: seq<nat>)
    requires forall c :: c in configs && Concerns(driverName, c) ==> decode(c.parameters.value.raw).Ok?
    ensures DecodedFrom(decode, driverName, configs, src, Decoded(decode, driverName, FromSource(source, configs)))
    ensures ListsSource(driverName, configs, source, src)
  {
    hide ListsSource, IsDecodedFrom, Concerns;
    if configs == [] {
      src := [];
      NothingListed(driverName, source);
    } else {
      var n := |configs| - 1;
      assert configs == configs[..n] + [configs[n]];
      src := SourceOf(decode, driverName, configs[..n], source);
      hide DecodedFrom, Decoded, FromSource;
      src := SourceStep(decode, driverName, configs[..n], configs[n], source, src);
    }
  }

  lemma NothingListed(driverName: string, source: ConfigSource)
    ensures ListsSource(driverName, [], source, [])
  {
  }

  lemma SourceStep<C(!new)>(
    decode: string -> Result<C>, driverName: string, init: seq<DeviceAllocationConfiguration>,
    last: DeviceAllocationConfiguration, source: ConfigSource, before: seq<nat>) returns (src: seq<nat>)
    requires Concerns(driverName, last) ==> decode(last.parameters.value.raw).Ok?
    requires DecodedFrom(decode, driverName, init, before, Decoded(decode, driverName, FromSource(source, init)))
    requires ListsSource(driverName, init, source, before)
    ensures DecodedFrom(decode, driverName, init + [last], src, Decoded(decode, driverName, FromSource(source, init + [last])))
    ensures ListsSource(driverName, init + [last], source, src)
  {
    hide FromSource, Decoded, ListsSource, DecodedFrom;
    var out := Decoded(decode, driverName, FromSource(source, init));
    DecodedSnoc(decode, driverName, init, last, source);
    ListsSnoc(driverName, init, last, source, before);
    DecodedFromMore(decode, driverName, init, last, before, out);
    src := before;
    if last.source == source && Concerns(driverName, last) {
      src := before + [|init|];
      assert IsDecodedFrom(decode, driverName, last, OpaqueDeviceConfig(last.requests, decode(last.parameters.value.raw).value));
    } else {
      assert out + [] == out;
    }
  }

  lemma DecodedFromMore<C(!new)>(
    decode: string -> Result<C>, driverName: string, init: seq<DeviceAllocationConfiguration>,
    last: DeviceAllocationConfiguration, src: seq<nat>, out: seq<OpaqueDeviceConfig<C>>)
    requires DecodedFrom(decode, driverName, init, src, out)
    ensures DecodedFrom(decode, driverName, init + [last], src, out)
    ensures forall o :: IsDecodedFrom(decode, driverName, last, o) ==>
              DecodedFrom(decode, driverName, init + [last], src + [|init|], out + [o])
  {
    hide IsDecodedFrom;
  }

  lemma DecodedSnoc<C(!new)>(
    decode: string -> Result<C>, driverName: string, init: seq<DeviceAllocationConfiguration>,
    last: DeviceAllocationConfiguration, source: ConfigSource)
    requires Concerns(driverName, last) ==> decode(last.parameters.value.raw).Ok?
    ensures Decoded(decode, driverName, FromSource(source, init + [last])) ==
            Decoded(decode, driverName, FromSource(source, init)) +
            if last.source == source && Concerns(driverName, last)
            then [OpaqueDeviceConfig(last.requests, decode(last.parameters.value.raw).value)] else []
  {
    assert (init + [last])[..|init|] == init;
    assert FromSource(source, init + [last]) == FromSource(source, init) + if last.source == source then [last] else [];
    hide FromSource;
    if last.source == source {
      DecodedConcat(decode, driverName, FromSource(source, init), [last]);
      assert [last][..0] == [];
    }
  }

  lemma ListsSnoc(
    driverName: string, init: seq<DeviceAllocationConfiguration>, last: DeviceAllocationConfiguration, source: ConfigSource,
    src: seq<nat>)
    requires ListsSource(driverName, init, source, src)
    ensures ListsSource(driverName, init + [last], source,
                        if last.source == source && Concerns(driverName, last) then src + [|init|] else src)
  {
    hide Concerns;
    var n, all := |init|, init + [last];
    var grown := if last.source == source && Concerns(driverName, last) then src + [n] else src;
    forall i | 0 <= i < |grown| ensures grown[i] < |all| && all[grown[i]].source == source {
      assert i < |src| ==> all[src[i]] == init[src[i]];
    }
    forall i, k | 0 <= i < k < |grown| ensures grown[i] < grown[k] {
      assert src[i] < n;
    }
    forall p: nat | p < |all| && all[p].source == source && Concerns(driverName, all[p]) ensures p in grown {
      if p < n {
        assert all[p] == init[p] && p in src;
      } else {
        assert grown[|src|] == p;
      }
    }
  }

  lemma DecodedInPrecedence<C(!new)>(decode: string -> Result<C>, driverName: string, configs: seq<DeviceAllocationConfiguration>)
    returns (src: seq<nat>)
    requires forall c :: c in configs ==> Acceptable(decode, driverName, c)
    ensures IsPrecedence(decode, driverName, configs, src,
                         Decoded(decode, driverName, FromSource(FromClass, configs)) +
                         Decoded(decode, driverName, FromSource(FromClaim, configs)))
  {
    hide FromSource, Decoded, IsDecodedFrom;
    var byClass := SourceOf(decode, driverName, configs, FromClass);
    var byClaim := SourceOf(decode, driverName, configs, FromClaim);
    src := byClass + byClaim;
    BothInOrder(driverName, configs, byClass, byClaim);
    forall p | 0 <= p < |configs| && Concerns(driverName, configs[p]) ensures p in src {
      assert Acceptable(decode, driverName, configs[p]);
      assert p in byClass || p in byClaim;
    }
  }

  lemma BothInOrder(driverName: string, configs: seq<DeviceAllocationConfiguration>, byClass: seq<nat>, byClaim: seq<nat>)
    requires ListsSource(driverName, configs, FromClass, byClass) && ListsSource(driverName, configs, FromClaim, byClaim)
    ensures forall i, k :: 0 <= i < k < |byClass + byClaim| ==> Precedes(configs, (byClass + byClaim)[i], (byClass + byClaim)[k])
  {
    hide Concerns;
  }

  /** Ordered from lowest to highest precedence: every class configuration comes before every claim
      configuration, and within one source the order of the list is kept. It fails exactly when some
      entry has an unknown source, is not opaque, or is this driver's and cannot be decoded. */
  method GetOpaqueDeviceConfigs<C(!new)>(
    decode: string -> Result<C>, driverName: string, possibleConfigs: seq<DeviceAllocationConfiguration>)
    returns (r: Result<seq<OpaqueDeviceConfig<C>>>)
    ensures r.Ok? <==> forall c :: c in possibleConfigs ==> Acceptable(decode, driverName, c)
    ensures r.Ok? ==> r.value == Decoded(decode, driverName, FromSource(FromClass, possibleConfigs)) +
                                 Decoded(decode, driverName, FromSource(FromClaim, possibleConfigs))
    ensures r.Ok? ==> exists src :: IsPrecedence(decode, driverName, possibleConfigs, src, r.value)
  {
    var classConfigs: seq<DeviceAllocationConfiguration> := [];
    var claimConfigs: seq<DeviceAllocationConfiguration> := [];
    for i := 0 to |possibleConfigs|
      invariant classConfigs == FromSource(FromClass, possibleConfigs[..i])
      invariant claimConfigs == FromSource(FromClaim, possibleConfigs[..i])
      invariant forall k :: 0 <= k < i ==> !possibleConfigs[k].source.UnknownSource?
    {
      var config := possibleConfigs[i];
      assert possibleConfigs[..i + 1][..i] == possibleConfigs[..i];
      match config.source
      case FromClass =>
        classConfigs := classConfigs + [config];
      case FromClaim =>
        claimConfigs := claimConfigs + [config];
      case UnknownSource =>
        assert config in possibleConfigs && !Acceptable(decode, driverName, config);
        return Err(BadConfig);
    }
    assert possibleConfigs[..|possibleConfigs|] == possibleConfigs;
    FromSourceMembers(FromClass, possibleConfigs);
    FromSourceMembers(FromClaim, possibleConfigs);
    assert forall c :: c in classConfigs + claimConfigs <==> c in possibleConfigs;
    DecodedConcat(decode, driverName, classConfigs, claimConfigs);
    r := DecodeCandidates(decode, driverName, classConfigs + claimConfigs);
    if r.Ok? {
      ghost var src := DecodedInPrecedence(decode, driverName, possibleConfigs);
    }
  }

  method DecodeCandidates<C>(
    decode: string -> Result<C>, driverName: string, candidateConfigs: seq<DeviceAllocationConfiguration>)
    returns (r: Result<seq<OpaqueDeviceConfig<C>>>)
    requires forall c :: c in candidateConfigs ==> !c.source.UnknownSource?
    ensures r.Ok? <==> forall c :: c in candidateConfigs ==> Acceptable(decode, driverName, c)
    ensures r.Ok? ==> r.value == Decoded(decode, driverName, candidateConfigs)
  {
    var resultConfigs: seq<OpaqueDeviceConfig<C>> := [];
    for i := 0 to |candidateConfigs|
      invariant resultConfigs == Decoded(decode, driverName, candidateConfigs[..i])
      invariant forall k :: 0 <= k < i ==> Acceptable(decode, driverName, candidateConfigs[k])
    {
      var config := candidateConfigs[i];
      assert config in candidateConfigs;
      assert candidateConfigs[..i + 1][..i] == candidateConfigs[..i];
      if config.parameters.None? {
        assert !Acceptable(decode, driverName, config);
        return Err(BadConfig);
      }
      if config.parameters.value.driver != driverName {
        continue;
      }
      var decodedConfig := decode(config.parameters.value.raw);
      if decodedConfig.Err? {
        assert !Acceptable(decode, driverName, config);
        return Err(BadConfig);
      }
      resultConfigs := resultConfigs + [OpaqueDeviceConfig(config.requests, decodedConfig.value)];
    }
    assert candidateConfigs[..|candidateConfigs|] == candidateConfigs;
    return Ok(resultConfigs);
  }

  // ------------------------------------------------------------ precedence scan

  /** A configuration matches a request that it names, or any request of a suitable device when it
      names none. `fits` is false only for a typed configuration on a device of another type. */
  predicate Matches<C(!new), T(!new)>(fits: (C, T) -> bool, c: OpaqueDeviceConfig<C>, request: string, t: T) {
    request in c.requests || (c.requests == [] && fits(c.config, t))
  }

  /** `j` is the matching configuration of highest precedence. */
  ghost predicate Governs<C(!new), T(!new)>(
    fits: (C, T) -> bool, configs: seq<OpaqueDeviceConfig<C>>, j: nat, request: string, t: T)
  {
    && j < |configs|
    && Matches(fits, configs[j], request, t)
    && forall k :: j < k < |configs| ==> !Matches(fits, configs[k], request, t)
  }

  /** The governing configuration among the first `n`, as the backward scan finds it. */
  function Governing<C(!new), T(!new)>(
    fits: (C, T) -> bool, configs: seq<OpaqueDeviceConfig<C>>, n: nat, request: string, t: T): (r: Option<nat>)
    requires n <= |configs|
    ensures r.Some? ==> r.value < n && Matches(fits, configs[r.value], request, t)
    ensures r.Some? ==> forall k :: r.value < k < n ==> !Matches(fits, configs[k], request, t)
    ensures r.None? ==> forall k :: 0 <= k < n ==> !Matches(fits, configs[k], request, t)
  {
    if n == 0 then None
    else if Matches(fits, configs[n - 1], request, t) then Some(n - 1)
    else Governing(fits, configs, n - 1, request, t)
  }

  lemma GoverningIsUnique<C(!new), T(!new)>(
    fits: (C, T) -> bool, configs: seq<OpaqueDeviceConfig<C>>, j: nat, request: string, t: T)
    ensures Governs(fits, configs, j, request, t) <==> Governing(fits, configs, |configs|, request, t) == Some(j)
  {
    var g := Governing(fits, configs, |configs|, request, t);
    if Governs(fits, configs, j, request, t) && g.Some? {
      assert !(g.value < j) && !(j < g.value);
    }
  }

  function Of<C(!new), T(!new)>(
    fits: (C, T) -> bool, configs: seq<OpaqueDeviceConfig<C>>, types: map<string, T>, r: AllocationResult): Option<nat>
  {
    if r.device in types then Governing(fits, configs, |configs|, r.request, types[r.device]) else None
  }

  /** The scan rejects a result whose device is unknown, or whose governing configuration names the
      request but is made for another type of device. */
  predicate Rejected<C(!new), T(!new)>(
    fits: (C, T) -> bool, configs: seq<OpaqueDeviceConfig<C>>, types: map<string, T>, r: AllocationResult)
  {
    r.device !in types ||
    var g := Of(fits, configs, types, r);
    g.Some? && r.request in configs[g.value].requests && !fits(configs[g.value].config, types[r.device])
  }

  /** The results governed by configuration `j`, in the order of the allocation. */
  function Group<C(!new), T(!new)>(
    fits: (C, T) -> bool, configs: seq<OpaqueDeviceConfig<C>>, types: map<string, T>,
    driverName: string, results: seq<AllocationResult>, j: nat): seq<AllocationResult>
  {
    if results == [] then []
    else
      var init := Group(fits, configs, types, driverName, results[..|results| - 1], j);
      var last := results[|results| - 1];
      if last.driver == driverName && Of(fits, configs, types, last) == Some(j) then init + [last] else init
  }

  /** The configuration map, keyed by the position of the configuration (each position holds an object
      of its own): every group is exactly `Group`, and only non-empty groups are present. */
  ghost predicate IsResultsMap<C(!new), T(!new)>(
    fits: (C, T) -> bool, configs: seq<OpaqueDeviceConfig<C>>, types: map<string, T>,
    driverName: string, results: seq<AllocationResult>, m: map<nat, seq<AllocationResult>>)
  {
    && (forall j :: j in m ==> m[j] != [] && m[j] == Group(fits, configs, types, driverName, results, j))
    && (forall j: nat :: Group(fits, configs, types, driverName, results, j) != [] ==> j in m)
  }

  lemma ResultsMapGrows<C(!new), T(!new)>(
    fits: (C, T) -> bool, configs: seq<OpaqueDeviceConfig<C>>, types: map<string, T>,
    driverName: string, init: seq<AllocationResult>, last: AllocationResult, m: map<nat, seq<AllocationResult>>)
    requires IsResultsMap(fits, configs, types, driverName, init, m)
    ensures var g := Of(fits, configs, types, last);
            IsResultsMap(fits, configs, types, driverName, init + [last],
                         if last.driver == driverName && g.Some? then Append(m, g.value, last) else m)
  {
    assert (init + [last])[..|init + [last]| - 1] == init;
  }

  method GetConfigResultsMap<C(!new), T(!new)>(
    fits: (C, T) -> bool, configs: seq<OpaqueDeviceConfig<C>>, types: map<string, T>,
    driverName: string, results: seq<AllocationResult>)
    returns (r: Result<map<nat, seq<AllocationResult>>>)
    ensures r.Err? <==> exists x :: x in results && x.driver == driverName && Rejected(fits, configs, types, x)
    ensures r.Ok? ==> IsResultsMap(fits, configs, types, driverName, results, r.value)
  {
    hide Governing, Matches;
    var configResultsMap: map<nat, seq<AllocationResult>> := map[];
    for i := 0 to |results|
      invariant IsResultsMap(fits, configs, types, driverName, results[..i], configResultsMap)
      invariant forall k :: 0 <= k < i && results[k].driver == driverName ==> !Rejected(fits, configs, types, results[k])
    {
      var result := results[i];
      assert results[..i + 1] == results[..i] + [result];
      ResultsMapGrows(fits, configs, types, driverName, results[..i], result, configResultsMap);
      hide IsResultsMap;
      if result.driver != driverName {
        continue;
      }
      if result.device !in types {
        assert result in results && Rejected(fits, configs, types, result);
        return Err(UnknownDevice);
      }
      var c := FindConfig(fits, configs, result.request, types[result.device]);
      if c.Err? {
        assert result in results && Rejected(fits, configs, types, result);
        return Err(c.error);
      }
      if c.value.Some? {
        configResultsMap := Append(configResultsMap, c.value.value, result);
      }
    }
    assert results[..|results|] == results;
    return Ok(configResultsMap);
  }

  /** The inner loop: from the highest precedence down to the first configuration that matches. */
  method FindConfig<C(!new), T(!new)>(
    fits: (C, T) -> bool, configs: seq<OpaqueDeviceConfig<C>>, request: string, t: T)
    returns (r: Result<Option<nat>>)
    ensures var g := Governing(fits, configs, |configs|, request, t);
            && (r.Err? <==> g.Some? && request in configs[g.value].requests && !fits(configs[g.value].config, t))
            && (r.Ok? ==> r.value == g)
  {
    var c := |configs|;
    while c > 0
      invariant 0 <= c <= |configs|
      invariant forall k :: c <= k < |configs| ==> !Matches(fits, configs[k], request, t)
    {
      c := c - 1;
      if request in configs[c].requests {
        GoverningIsUnique(fits, configs, c, request, t);
        if !fits(configs[c].config, t) {
          return Err(WrongType);
        }
        return Ok(Some(c));
      }
      if configs[c].requests == [] {
        if !fits(configs[c].config, t) {
          continue;
        }
        GoverningIsUnique(fits, configs, c, request, t);
        return Ok(Some(c));
      }
    }
    return Ok(None);
  }

  function Append(m: map<nat, seq<AllocationResult>>, j: nat, r: AllocationResult): map<nat, seq<AllocationResult>> {
    m[j := (if j in m then m[j] else []) + [r]]
  }

  // ------------------------------------------------------------------ partition

  /** Every own result has a governing configuration. */
  ghost predicate Total<C(!new), T(!new)>(
    fits: (C, T) -> bool, configs: seq<OpaqueDeviceConfig<C>>, types: map<string, T>,
    driverName: string, results: seq<AllocationResult>)
  {
    forall r :: r in results && r.driver == driverName ==> Of(fits, configs, types, r).Some?
  }

  /** The groups in the order in which a walk over the map visits them. */
  function Visited(m: map<nat, seq<AllocationResult>>, order: seq<nat>): seq<AllocationResult> {
    if order == [] then []
    else
      var last := order[|order| - 1];
      Visited(m, order[..|order| - 1]) + if last in m then m[last] else []
  }

  predicate IsOrderOf(order: seq<nat>, keys: set<nat>) {
    && (forall i :: 0 <= i < |order| ==> order[i] in keys)
    && (forall j :: j in keys ==> j in order)
    && (forall i, k :: 0 <= i < k < |order| ==> order[i] != order[k])
  }

  lemma {:induction false} VisitedCount(m: map<nat, seq<AllocationResult>>, order: seq<nat>, x: AllocationResult, j: nat)
    requires forall i, k :: 0 <= i < k < |order| ==> order[i] != order[k]
    requires forall k :: k in m && k != j ==> x !in m[k]
    ensures multiset(Visited(m, order))[x] == if j in order && j in m then multiset(m[j])[x] else 0
  {
    if order != [] {
      var init, last := order[..|order| - 1], order[|order| - 1];
      assert order == init + [last];
      VisitedCount(m, init, x, j);
    }
  }

  lemma {:induction false} GroupCount<C(!new), T(!new)>(
    fits: (C, T) -> bool, configs: seq<OpaqueDeviceConfig<C>>, types: map<string, T>,
    driverName: string, results: seq<AllocationResult>, x: AllocationResult, j: nat)
    requires x.driver == driverName && Of(fits, configs, types, x) == Some(j)
    ensures multiset(Group(fits, configs, types, driverName, results, j))[x] == multiset(OfDriver(driverName, results))[x]
  {
    if results != [] {
      GroupCount(fits, configs, types, driverName, results[..|results| - 1], x, j);
    }
  }

  lemma {:induction false} OfDriverMembers(driverName: string, results: seq<AllocationResult>)
    ensures forall x :: x in OfDriver(driverName, results) <==> x in results && x.driver == driverName
  {
    if results != [] {
      OfDriverMembers(driverName, results[..|results| - 1]);
      assert results == results[..|results| - 1] + [results[|results| - 1]];
    }
  }

  /** Whatever the order of the walk, it meets each of this driver's results exactly once. */
  lemma AnyWalkPartitions<C(!new), T(!new)>(
    fits: (C, T) -> bool, configs: seq<OpaqueDeviceConfig<C>>, types: map<string, T>,
    driverName: string, results: seq<AllocationResult>, m: map<nat, seq<AllocationResult>>, order: seq<nat>)
    requires IsResultsMap(fits, configs, types, driverName, results, m) && IsOrderOf(order, m.Keys)
    requires Total(fits, configs, types, driverName, results)
    ensures multiset(Visited(m, order)) == multiset(OfDriver(driverName, results))
  {
    OfDriverMembers(driverName, results);
    forall x ensures multiset(Visited(m, order))[x] == multiset(OfDriver(driverName, results))[x] {
      var g := Of(fits, configs, types, x);
      var j := if g.Some? then g.value else 0;
      forall k | k in m && (k != j || x !in results || x.driver != driverName) ensures x !in m[k] {
        GroupMembers(fits, configs, types, driverName, results, k);
      }
      VisitedCount(m, order, x, j);
      if x in results && x.driver == driverName {
        GroupCount(fits, configs, types, driverName, results, x, j);
        GroupMembers(fits, configs, types, driverName, results, j);
      }
    }
  }

  /** A group keeps the order of the allocation. */
  lemma {:induction false} GroupConcat<C(!new), T(!new)>(
    fits: (C, T) -> bool, configs: seq<OpaqueDeviceConfig<C>>, types: map<string, T>,
    driverName: string, a: seq<AllocationResult>, b: seq<AllocationResult>, j: nat)
    ensures Group(fits, configs, types, driverName, a + b, j) ==
            Group(fits, configs, types, driverName, a, j) + Group(fits, configs, types, driverName, b, j)
  {
    if b == [] {
      assert a + b == a;
    } else {
      assert (a + b)[..|a + b| - 1] == a + b[..|b| - 1];
      GroupConcat(fits, configs, types, driverName, a, b[..|b| - 1], j);
    }
  }

  /** A result is in group `j` exactly when it is this driver's and configuration `j` governs it. */
  lemma {:induction false} GroupMembers<C(!new), T(!new)>(
    fits: (C, T) -> bool, configs: seq<OpaqueDeviceConfig<C>>, types: map<string, T>,
    driverName: string, results: seq<AllocationResult>, j: nat)
    ensures forall r :: r in Group(fits, configs, types, driverName, results, j) <==>
              r in results && r.driver == driverName && Of(fits, configs, types, r) == Some(j)
  {
    if results != [] {
      GroupMembers(fits, configs, types, driverName, results[..|results| - 1], j);
      assert results == results[..|results| - 1] + [results[|results| - 1]];
    }
  }

  /** The scan leaves a result without a configuration exactly when nothing names its request and no
      unrestricted configuration fits its device. A default for every type of device rules that out. */
  lemma ScanIsTotal<C(!new), T(!new)>(
    fits: (C, T) -> bool, configs: seq<OpaqueDeviceConfig<C>>, types: map<string, T>, r: AllocationResult)
    requires r.device in types
    ensures Of(fits, configs, types, r).None? <==>
              forall c :: c in configs ==> r.request !in c.requests && (c.requests == [] ==> !fits(c.config, types[r.device]))
  {
    if Of(fits, configs, types, r).None? {
      forall c | c in configs
        ensures r.request !in c.requests && (c.requests == [] ==> !fits(c.config, types[r.device]))
      {
        var k :| 0 <= k < |configs| && configs[k] == c;
        assert !Matches(fits, configs[k], r.request, types[r.device]);
      }
    }
  }

  /** With the defaults in front and claim configurations behind class configurations, a result goes to
      the last matching claim configuration if one matches, else to the last matching class
      configuration, else to a default. */
  lemma ClaimBeatsClassBeatsDefault<C(!new), T(!new)>(
    fits: (C, T) -> bool, defaults: seq<OpaqueDeviceConfig<C>>, classes: seq<OpaqueDeviceConfig<C>>,
    claims: seq<OpaqueDeviceConfig<C>>, request: string, t: T)
    ensures var configs := defaults + classes + claims;
            var all := Governing(fits, configs, |configs|, request, t);
            var byClaim := Governing(fits, claims, |claims|, request, t);
            var byClass := Governing(fits, classes, |classes|, request, t);
            var byDefault := Governing(fits, defaults, |defaults|, request, t);
            all == if byClaim.Some? then Some(|defaults| + |classes| + byClaim.value)
                   else if byClass.Some? then Some(|defaults| + byClass.value)
                   else byDefault
  {
    GoverningConcat(fits, defaults + classes, claims, |claims|, request, t);
    GoverningConcat(fits, defaults, classes, |classes|, request, t);
    assert defaults + classes == (defaults + classes) + [];
    GoverningPrefix(fits, defaults + classes, claims, |defaults + classes|, request, t);
    GoverningPrefix(fits, defaults, classes, |defaults|, request, t);
  }

  lemma {:induction false} GoverningPrefix<C(!new), T(!new)>(
    fits: (C, T) -> bool, a: seq<OpaqueDeviceConfig<C>>, b: seq<OpaqueDeviceConfig<C>>, n: nat, request: string, t: T)
    requires n <= |a|
    ensures Governing(fits, a + b, n, request, t) == Governing(fits, a, n, request, t)
  {
    if n > 0 {
      GoverningPrefix(fits, a, b, n - 1, request, t);
    }
  }

  lemma {:induction false} GoverningConcat<C(!new), T(!new)>(
    fits: (C, T) -> bool, a: seq<OpaqueDeviceConfig<C>>, b: seq<OpaqueDeviceConfig<C>>, n: nat, request: string, t: T)
    requires n <= |b|
    ensures var g := Governing(fits, b, n, request, t);
            Governing(fits, a + b, |a| + n, request, t) ==
            if g.Some? then Some(|a| + g.value) else Governing(fits, a + b, |a|, request, t)
  {
    if n > 0 {
      GoverningConcat(fits, a, b, n - 1, request, t);
      assert (a + b)[|a| + n - 1] == b[n - 1];
    }
  }
}
