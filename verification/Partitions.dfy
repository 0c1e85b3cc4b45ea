/** KEP 4815 counters: what a full GPU offers, what it and its MIG partitions consume, and what an
    allocation within the counters can look like. */
module Partitions {
  import opened Basics
  import opened Decimal
  import opened CounterNames
  import opened MigNames

  /** The capacity dimensions of a GPU or a MIG device. */
  datatype Capacity = Multiprocessors | CopyEngines | Decoders | Encoders | JpegEngines | OfaEngines | Memory

  type Capacities = map<Capacity, int>
  type Counters = map<string, int>

  const COMPUTE_INSTANCE_PROFILE_1_SLICE_REV1 := 7

  /** NVML's description of a GPU-instance profile (the fields that become capacities). */
  datatype GiProfileInfo = GiProfileInfo(
    multiprocessorCount: nat, copyEngineCount: nat, decoderCount: nat, encoderCount: nat,
    jpegCount: nat, ofaCount: nat, memorySizeMB: nat)

  datatype Placement = Placement(start: nat, size: nat)

  datatype MigSpec = MigSpec(profile: GiProfileInfo, placement: Placement)

  // ------------------------------------------------------------------ capacities

  /** `int64(uint64 * 1024 * 1024)` in two's complement. */
  function MemoryBytes(memorySizeMB: nat): (r: int)
    ensures -0x8000_0000_0000_0000 <= r < 0x8000_0000_0000_0000 && (memorySizeMB * 1048576 - r) % 0x1_0000_0000_0000_0000 == 0
  {
    var wrapped := (memorySizeMB * 1024 * 1024) % 0x1_0000_0000_0000_0000;
    if wrapped < 0x8000_0000_0000_0000 then wrapped else wrapped - 0x1_0000_0000_0000_0000
  }

  function CommonCapacitiesMig(p: GiProfileInfo): Capacities {
    map[
      Multiprocessors := p.multiprocessorCount,
      CopyEngines := p.copyEngineCount,
      Decoders := p.decoderCount,
      Encoders := p.encoderCount,
      JpegEngines := p.jpegCount,
      OfaEngines := p.ofaCount,
      Memory := MemoryBytes(p.memorySizeMB)]
  }

  function QualifiedName(c: Capacity): string {
    match c
    case Multiprocessors => "multiprocessors"
    case CopyEngines => "copyEngines"
    case Decoders => "decoders"
    case Encoders => "encoders"
    case JpegEngines => "jpegEngines"
    case OfaEngines => "ofaEngines"
    case Memory => "memory"
  }

  function CounterName(c: Capacity): string {
    CamelToDnsName(QualifiedName(c))
  }

  lemma WordNames(c: Capacity)
    requires c in {Multiprocessors, Decoders, Encoders, Memory}
    ensures CounterName(c) == QualifiedName(c)
  {
    hide CamelToDnsName;
    CounterNameOfWord(QualifiedName(c));
  }

  lemma EngineName(c: Capacity, word: string)
    requires (c == CopyEngines && word == "copy") || (c == JpegEngines && word == "jpeg") || (c == OfaEngines && word == "ofa")
    ensures CounterName(c) == word + "-engines"
  {
    hide CamelToDnsName;
    CounterNameOfTwoWords(word, 'E', "ngines");
    assert word + ['E'] + "ngines" == QualifiedName(c);
    assert ToLower('E') == 'e';
    assert word + "-" + ['e'] + "ngines" == word + "-engines";
  }

  /** The names under which the counters are published. */
  lemma CounterNamesAre()
    ensures CounterName(Multiprocessors) == "multiprocessors" && CounterName(CopyEngines) == "copy-engines"
    ensures CounterName(Decoders) == "decoders" && CounterName(Encoders) == "encoders"
    ensures CounterName(JpegEngines) == "jpeg-engines" && CounterName(OfaEngines) == "ofa-engines"
    ensures CounterName(Memory) == "memory"
  {
    hide CounterName;
    WordNames(Multiprocessors);
    WordNames(Decoders);
    WordNames(Encoders);
    WordNames(Memory);
    EngineName(CopyEngines, "copy");
    EngineName(JpegEngines, "jpeg");
    EngineName(OfaEngines, "ofa");
    assert "copy" + "-engines" == "copy-engines" && "jpeg" + "-engines" == "jpeg-engines" && "ofa" + "-engines" == "ofa-engines";
  }

  lemma QualifiedNamesAreWords(c: Capacity)
    ensures QualifiedName(c) != "" && IsCapacityName(QualifiedName(c)) && IsLower(QualifiedName(c)[0])
  {
  }

  lemma LengthAndInitialDecide(c: Capacity, d: Capacity)
    requires |QualifiedName(c)| == |QualifiedName(d)| && QualifiedName(c)[..1] == QualifiedName(d)[..1]
    ensures c == d
  {
    assert QualifiedName(c)[..1][0] == QualifiedName(d)[..1][0];
  }

  /** Counters derived from different capacities never run into one another. */
  lemma CounterNameIsInjective(c: Capacity, d: Capacity)
    requires CounterName(c) == CounterName(d)
    ensures c == d
  {
    var m, n := QualifiedName(c), QualifiedName(d);
    QualifiedNamesAreWords(c);
    QualifiedNamesAreWords(d);
    CounterNamesAreDistinct(m, n);
    assert |m| == |Lowered(m)| == |Lowered(n)| == |n|;
    assert m[0] == Lowered(m)[0] == Lowered(n)[0] == n[0];
    assert m[..1] == [m[0]] && n[..1] == [n[0]];
    LengthAndInitialDecide(c, d);
  }

  lemma CounterNameIsNoSlice(c: Capacity, i: nat)
    ensures CounterName(c) != MemSliceCounterName(i)
  {
    QualifiedNamesAreWords(c);
    SliceNamesAreApart(QualifiedName(c), i);
  }

  // -------------------------------------------------------------------- counters

  /** `c` holds the capacities of `m` under their counter names, and nothing else. */
  ghost predicate CountsCapacities(c: Counters, m: Capacities) {
    && (forall n :: n in m ==> CounterName(n) in c && c[CounterName(n)] == m[n])
    && (forall k :: k in c ==> exists n :: n in m && CounterName(n) == k)
  }

  method CapacitiesToCounters(m: Capacities) returns (counters: Counters)
    ensures CountsCapacities(counters, m)
  {
    counters := map[];
    var todo := m.Keys;
    while todo != {}
      invariant todo <= m.Keys
      invariant forall n :: n in m.Keys - todo ==> CounterName(n) in counters && counters[CounterName(n)] == m[n]
      invariant forall k :: k in counters ==> exists n :: n in m.Keys - todo && CounterName(n) == k
    {
      var name :| name in todo;
      forall n | n in m.Keys - todo ensures CounterName(n) != CounterName(name) {
        if CounterName(n) == CounterName(name) {
          CounterNameIsInjective(n, name);
        }
      }
      counters := counters[CounterName(name) := m[name]];
      todo := todo - {name};
    }
  }

  /** One counter of value one for every memory slice of a placement. */
  ghost function SliceCounters(start: nat, size: nat): Counters {
    map i: nat | start <= i < start + size :: MemSliceCounterName(i) := 1
  }

  lemma SliceCountersStep(counters: Counters, start: nat, k: nat)
    ensures counters + SliceCounters(start, k + 1) ==
            (counters + SliceCounters(start, k))[MemSliceCounterName(start + k) := 1]
  {
    hide MemSliceCounterName;
    var s, s' := SliceCounters(start, k), SliceCounters(start, k + 1);
    assert s' == s[MemSliceCounterName(start + k) := 1];
  }

  lemma NoSliceCounters(counters: Counters, start: nat)
    ensures counters == counters + SliceCounters(start, 0)
  {
    assert SliceCounters(start, 0) == map[];
  }

  method AddCountersForMemSlices(counters: Counters, start: nat, size: nat) returns (r: Counters)
    ensures r == counters + SliceCounters(start, size)
  {
    hide MemSliceCounterName, SliceCounters;
    r := counters;
    NoSliceCounters(counters, start);
    var i := start;
    while i < start + size
      invariant start <= i <= start + size
      invariant r == counters + SliceCounters(start, i - start)
    {
      SliceCountersStep(counters, start, i - start);
      r := r[MemSliceCounterName(i) := 1];
      i := i + 1;
    }
  }

  /** `c` is what a device of these capacities and this placement consumes. */
  ghost predicate IsConsumption(c: Counters, capacities: Capacities, p: Placement) {
    exists base :: CountsCapacities(base, capacities) && c == base + SliceCounters(p.start, p.size)
  }

  function At(c: Counters, name: string): int {
    if name in c then c[name] else 0
  }

  /** The same, counter by counter. */
  lemma ConsumptionOfSlice(c: Counters, capacities: Capacities, p: Placement, i: nat)
    requires IsConsumption(c, capacities, p)
    ensures At(c, MemSliceCounterName(i)) == if p.start <= i < p.start + p.size then 1 else 0
  {
    var name := MemSliceCounterName(i);
    var base :| CountsCapacities(base, capacities) && c == base + SliceCounters(p.start, p.size);
    if name in base {
      var n :| n in capacities && CounterName(n) == name;
      CounterNameIsNoSlice(n, i);
    }
    SliceCounterIsPresent(p.start, p.size, i);
  }

  lemma SliceCounterIsPresent(start: nat, size: nat, i: nat)
    ensures MemSliceCounterName(i) in SliceCounters(start, size) <==> start <= i < start + size
  {
    forall j: nat ensures MemSliceCounterName(j) == MemSliceCounterName(i) ==> i == j {
      SliceNamesAreDistinct(i, j);
    }
  }

  lemma ConsumptionOfCapacity(c: Counters, capacities: Capacities, p: Placement, n: Capacity)
    requires IsConsumption(c, capacities, p) && n in capacities
    ensures At(c, CounterName(n)) == capacities[n]
  {
    hide CounterName, MemSliceCounterName;
    var base :| CountsCapacities(base, capacities) && c == base + SliceCounters(p.start, p.size);
    if CounterName(n) in SliceCounters(p.start, p.size) {
      var i: nat :| p.start <= i < p.start + p.size && MemSliceCounterName(i) == CounterName(n);
      CounterNameIsNoSlice(n, i);
    }
  }

  /** Counter by counter, under the names that are published. */
  ghost predicate CountsProfile(c: Counters, p: GiProfileInfo) {
    && At(c, "multiprocessors") == p.multiprocessorCount && At(c, "copy-engines") == p.copyEngineCount
    && At(c, "decoders") == p.decoderCount && At(c, "encoders") == p.encoderCount
    && At(c, "jpeg-engines") == p.jpegCount && At(c, "ofa-engines") == p.ofaCount
    && (p.memorySizeMB * 1048576 < 0x8000_0000_0000_0000 ==> At(c, "memory") == p.memorySizeMB * 1048576)
  }

  ghost predicate CountsSlices(c: Counters, p: Placement) {
    forall i: nat :: At(c, "memory-slice-" + PrintInt(i)) == if p.start <= i < p.start + p.size then 1 else 0
  }

  lemma ConsumptionCounts(c: Counters, p: GiProfileInfo, placement: Placement)
    requires IsConsumption(c, CommonCapacitiesMig(p), placement)
    ensures CountsProfile(c, p) && CountsSlices(c, placement)
  {
    hide CounterName, IsConsumption;
    CounterNamesAre();
    ConsumptionOfCapacity(c, CommonCapacitiesMig(p), placement, Multiprocessors);
    ConsumptionOfCapacity(c, CommonCapacitiesMig(p), placement, CopyEngines);
    ConsumptionOfCapacity(c, CommonCapacitiesMig(p), placement, Decoders);
    ConsumptionOfCapacity(c, CommonCapacitiesMig(p), placement, Encoders);
    ConsumptionOfCapacity(c, CommonCapacitiesMig(p), placement, JpegEngines);
    ConsumptionOfCapacity(c, CommonCapacitiesMig(p), placement, OfaEngines);
    ConsumptionOfCapacity(c, CommonCapacitiesMig(p), placement, Memory);
    SlicesAreCounted(c, CommonCapacitiesMig(p), placement);
  }

  lemma SlicesAreCounted(c: Counters, capacities: Capacities, placement: Placement)
    requires IsConsumption(c, capacities, placement)
    ensures CountsSlices(c, placement)
  {
    hide IsConsumption, PrintInt;
    forall i: nat ensures At(c, "memory-slice-" + PrintInt(i)) == if placement.start <= i < placement.start + placement.size then 1 else 0 {
      ConsumptionOfSlice(c, capacities, placement, i);
    }
  }

  // ------------------------------------------------------------------ full device

  class GpuInfo {
    const minor: nat
    var maxCapacities: Capacities
    var memSliceCount: nat

    constructor (minor: nat)
      ensures this.minor == minor && maxCapacities == map[] && memSliceCount == 0
    {
      this.minor := minor;
      maxCapacities := map[];
      memSliceCount := 0;
    }

    /** `PartSharedCounterSets` and `PartConsumesCounters` of the full device: it offers, and when
        allocated consumes, every capacity and every memory slice. */
    method PartCounters() returns (counters: Counters)
      ensures IsConsumption(counters, maxCapacities, Placement(0, memSliceCount))
      ensures CountsSlices(counters, Placement(0, memSliceCount))
    {
      hide CountsSlices;
      var base := CapacitiesToCounters(maxCapacities);
      counters := AddCountersForMemSlices(base, 0, memSliceCount);
      SlicesAreCounted(counters, maxCapacities, Placement(0, memSliceCount));
    }

    method AddDetailAfterWalkingMigProfiles(maxcap: Capacities, memSliceCount: nat)
      modifies this
      ensures maxCapacities == maxcap && this.memSliceCount == memSliceCount
    {
      maxCapacities := maxcap;
      this.memSliceCount := memSliceCount;
    }
  }

  method PartConsumesCounters(spec: MigSpec) returns (counters: Counters)
    ensures IsConsumption(counters, CommonCapacitiesMig(spec.profile), spec.placement)
    ensures CountsProfile(counters, spec.profile) && CountsSlices(counters, spec.placement)
  {
    hide CountsProfile, CountsSlices;
    var base := CapacitiesToCounters(CommonCapacitiesMig(spec.profile));
    counters := AddCountersForMemSlices(base, spec.placement.start, spec.placement.size);
    ConsumptionCounts(counters, spec.profile, spec.placement);
  }

  // ----------------------------------------------------------------- profile walk

  /** The outcome of one NVML query. */
  datatype Nvml<T> = Success(value: T) | NotSupported | InvalidArgument | Failed {
    predicate Skips() {
      NotSupported? || InvalidArgument?
    }
  }

  datatype MigProfile = MigProfile(
    c: nat, g: nat, ciProfileId: nat, giProfileInfo: Nvml<GiProfileInfo>, placements: Nvml<seq<Placement>>)
  {
    predicate Visited() {
      c == g && ciProfileId != COMPUTE_INSTANCE_PROFILE_1_SLICE_REV1 && !giProfileInfo.Skips()
    }

    predicate Fails() {
      Visited() && (giProfileInfo.Failed? || placements.Failed?)
    }

    function Specs(): seq<MigSpec> {
      if Visited() && giProfileInfo.Success? && placements.Success?
      then seq(|placements.value|, i requires 0 <= i < |placements.value| =>
                 MigSpec(giProfileInfo.value, placements.value[i]))
      else []
    }
  }

  function AllSpecs(profiles: seq<MigProfile>): seq<MigSpec> {
    if profiles == [] then [] else AllSpecs(profiles[..|profiles| - 1]) + profiles[|profiles| - 1].Specs()
  }

  /** Such a partition can be made from this profile: the compute instance takes the whole GPU instance, it is
      not the variant with media extensions, and NVML knows the profile and this placement. */
  predicate Offers(p: MigProfile, s: MigSpec) {
    && p.c == p.g && p.ciProfileId != 7
    && p.giProfileInfo == Success(s.profile) && p.placements.Success? && s.placement in p.placements.value
  }

  lemma {:induction false} AllSpecsAre(profiles: seq<MigProfile>)
    ensures forall s :: s in AllSpecs(profiles) <==> exists p :: p in profiles && Offers(p, s)
  {
    if profiles != [] {
      var init, last := profiles[..|profiles| - 1], profiles[|profiles| - 1];
      AllSpecsAre(init);
      assert profiles == init + [last];
      forall s ensures s in last.Specs() <==> Offers(last, s) {
        if Offers(last, s) {
          var i :| 0 <= i < |last.placements.value| && last.placements.value[i] == s.placement;
          assert last.Specs()[i] == s;
        }
      }
    }
  }

  ghost predicate Bounds(m: Capacities, caps: Capacities) {
    forall n :: n in caps ==> n in m && caps[n] <= m[n]
  }

  ghost predicate Reaches(m: Capacities, caps: Capacities, n: Capacity) {
    n in m && n in caps && caps[n] == m[n]
  }

  /** Every capacity of every spec is bounded by `m`, and every bound is reached by some spec. */
  ghost predicate IsMaximum(m: Capacities, specs: seq<MigSpec>) {
    && (forall s :: s in specs ==> Bounds(m, CommonCapacitiesMig(s.profile)))
    && (forall n :: n in m ==> exists s :: s in specs && Reaches(m, CommonCapacitiesMig(s.profile), n))
  }

  ghost predicate IsLargestSize(count: nat, specs: seq<MigSpec>) {
    && (forall s :: s in specs ==> s.placement.size <= count)
    && (count == 0 || exists s :: s in specs && s.placement.size == count)
  }

  function SetMax(m: Capacities, k: Capacity, v: int): Capacities {
    if k !in m || v > m[k] then m[k := v] else m
  }

  /** The inner loop of the walk: the pointwise maximum of two capacity maps. */
  method SetMaxAll(m: Capacities, caps: Capacities) returns (r: Capacities)
    ensures Bounds(r, m) && Bounds(r, caps)
    ensures forall n :: n in r ==> Reaches(r, m, n) || Reaches(r, caps, n)
  {
    r := m;
    var todo := caps.Keys;
    while todo != {}
      invariant todo <= caps.Keys && Bounds(r, m)
      invariant forall n :: n in caps.Keys - todo ==> n in r && caps[n] <= r[n]
      invariant forall n :: n in r ==> Reaches(r, m, n) || Reaches(r, caps, n)
    {
      var name :| name in todo;
      r := SetMax(r, name, caps[name]);
      todo := todo - {name};
    }
  }

  lemma BoundsCompose(r: Capacities, m: Capacities, caps: Capacities)
    requires Bounds(r, m) && Bounds(m, caps)
    ensures Bounds(r, caps)
  {
  }

  lemma MaximumGrows(m: Capacities, specs: seq<MigSpec>, s: MigSpec, r: Capacities)
    requires IsMaximum(m, specs)
    requires Bounds(r, m) && Bounds(r, CommonCapacitiesMig(s.profile))
    requires forall n :: n in r ==> Reaches(r, m, n) || Reaches(r, CommonCapacitiesMig(s.profile), n)
    ensures IsMaximum(r, specs + [s])
  {
    hide CommonCapacitiesMig;
    forall x | x in specs + [s] ensures Bounds(r, CommonCapacitiesMig(x.profile)) {
      if x in specs {
        BoundsCompose(r, m, CommonCapacitiesMig(x.profile));
      }
    }
    forall n | n in r ensures exists x :: x in specs + [s] && Reaches(r, CommonCapacitiesMig(x.profile), n) {
      hide Bounds;
      if Reaches(r, m, n) {
        var x :| x in specs && Reaches(m, CommonCapacitiesMig(x.profile), n);
        assert x in specs + [s] && Reaches(r, CommonCapacitiesMig(x.profile), n);
      } else {
        assert s in specs + [s] && Reaches(r, CommonCapacitiesMig(s.profile), n);
      }
    }
  }

  ghost predicate OffersProfile(c: Counters, p: GiProfileInfo) {
    && p.multiprocessorCount <= At(c, "multiprocessors") && p.copyEngineCount <= At(c, "copy-engines")
    && p.decoderCount <= At(c, "decoders") && p.encoderCount <= At(c, "encoders")
    && p.jpegCount <= At(c, "jpeg-engines") && p.ofaCount <= At(c, "ofa-engines")
    && (p.memorySizeMB * 1048576 < 0x8000_0000_0000_0000 ==> p.memorySizeMB * 1048576 <= At(c, "memory"))
  }

  /** Every counter is used up by some profile. */
  ghost predicate OffersNoMore(c: Counters, specs: seq<MigSpec>) {
    && (exists s :: s in specs && At(c, "multiprocessors") == s.profile.multiprocessorCount)
    && (exists s :: s in specs && At(c, "copy-engines") == s.profile.copyEngineCount)
    && (exists s :: s in specs && At(c, "decoders") == s.profile.decoderCount)
    && (exists s :: s in specs && At(c, "encoders") == s.profile.encoderCount)
    && (exists s :: s in specs && At(c, "jpeg-engines") == s.profile.jpegCount)
    && (exists s :: s in specs && At(c, "ofa-engines") == s.profile.ofaCount)
    && (exists s :: s in specs && At(c, "memory") == MemoryBytes(s.profile.memorySizeMB))
  }

  /** The full GPU offers, counter by counter, as much as the greediest of the profiles found, and no more. */
  lemma FullGpuCounters(shared: Counters, maxCapacities: Capacities, count: nat, specs: seq<MigSpec>)
    requires IsMaximum(maxCapacities, specs) && IsConsumption(shared, maxCapacities, Placement(0, count))
    ensures forall s :: s in specs ==> OffersProfile(shared, s.profile)
    ensures specs != [] ==> OffersNoMore(shared, specs)
  {
    hide CounterName, IsConsumption;
    CounterNamesAre();
    if specs != [] {
      forall n: Capacity ensures n in maxCapacities && At(shared, CounterName(n)) == maxCapacities[n] {
        assert specs[0] in specs && Bounds(maxCapacities, CommonCapacitiesMig(specs[0].profile));
        CapacityIsAmount(specs[0].profile, n);
        ConsumptionOfCapacity(shared, maxCapacities, Placement(0, count), n);
      }
      forall s | s in specs ensures OffersProfile(shared, s.profile) {
        assert Bounds(maxCapacities, CommonCapacitiesMig(s.profile));
        OffersBounded(shared, maxCapacities, s.profile);
      }
      hide CommonCapacitiesMig;
      SomeProfileReaches(shared, maxCapacities, specs);
    }
  }

  function Amount(p: GiProfileInfo, n: Capacity): int {
    match n
    case Multiprocessors => p.multiprocessorCount
    case CopyEngines => p.copyEngineCount
    case Decoders => p.decoderCount
    case Encoders => p.encoderCount
    case JpegEngines => p.jpegCount
    case OfaEngines => p.ofaCount
    case Memory => MemoryBytes(p.memorySizeMB)
  }

  lemma CapacityIsAmount(p: GiProfileInfo, n: Capacity)
    ensures n in CommonCapacitiesMig(p) && CommonCapacitiesMig(p)[n] == Amount(p, n)
  {
    match n
    case Multiprocessors =>
    case CopyEngines =>
    case Decoders =>
    case Encoders =>
    case JpegEngines =>
    case OfaEngines =>
    case Memory =>
  }

  lemma OffersBounded(shared: Counters, m: Capacities, p: GiProfileInfo)
    requires forall n: Capacity :: n in m && At(shared, CounterName(n)) == m[n]
    requires Bounds(m, CommonCapacitiesMig(p))
    ensures OffersProfile(shared, p)
  {
    CounterNamesAre();
    hide CounterName;
    assert At(shared, CounterName(Multiprocessors)) == m[Multiprocessors] && At(shared, CounterName(CopyEngines)) == m[CopyEngines];
    assert At(shared, CounterName(Decoders)) == m[Decoders] && At(shared, CounterName(Encoders)) == m[Encoders];
    assert At(shared, CounterName(JpegEngines)) == m[JpegEngines] && At(shared, CounterName(OfaEngines)) == m[OfaEngines];
    assert At(shared, CounterName(Memory)) == m[Memory];
  }

  lemma SomeProfileReaches(shared: Counters, m: Capacities, specs: seq<MigSpec>)
    requires forall n: Capacity :: n in m && At(shared, CounterName(n)) == m[n]
    requires forall n :: n in m ==> exists s :: s in specs && Reaches(m, CommonCapacitiesMig(s.profile), n)
    ensures OffersNoMore(shared, specs)
  {
    hide CounterName, CommonCapacitiesMig, Reaches;
    CounterNamesAre();
    var s := Reacher(shared, m, specs, Multiprocessors);
    s := Reacher(shared, m, specs, CopyEngines);
    s := Reacher(shared, m, specs, Decoders);
    s := Reacher(shared, m, specs, Encoders);
    s := Reacher(shared, m, specs, JpegEngines);
    s := Reacher(shared, m, specs, OfaEngines);
    s := Reacher(shared, m, specs, Memory);
  }

  lemma Reacher(shared: Counters, m: Capacities, specs: seq<MigSpec>, n: Capacity) returns (s: MigSpec)
    requires forall k: Capacity :: k in m && At(shared, CounterName(k)) == m[k]
    requires forall k :: k in m ==> exists s :: s in specs && Reaches(m, CommonCapacitiesMig(s.profile), k)
    ensures s in specs && At(shared, CounterName(n)) == Amount(s.profile, n)
  {
    hide CommonCapacitiesMig, Amount, CounterName;
    assert n in m;
    s :| s in specs && Reaches(m, CommonCapacitiesMig(s.profile), n);
    CapacityIsAmount(s.profile, n);
  }

  /** What the walk has gathered so far. */
  datatype Walk = Walk(infos: seq<MigSpec>, maxCapacities: Capacities, maxMemSlicesConsumed: nat) {
    ghost predicate Valid() {
      IsMaximum(maxCapacities, infos) && IsLargestSize(maxMemSlicesConsumed, infos)
    }
  }

  function InitialWalk(): (w: Walk)
    ensures w.Valid() && w.infos == []
  {
    Walk([], map[], 0)
  }

  method InspectMigProfilesAndPlacements(gpu: GpuInfo, profiles: seq<MigProfile>) returns (r: Result<seq<MigSpec>>)
    modifies gpu
    ensures r.Err? <==> exists p :: p in profiles && p.Fails()
    ensures r.Err? ==> gpu.maxCapacities == old(gpu.maxCapacities) && gpu.memSliceCount == old(gpu.memSliceCount)
    ensures r.Ok? ==> r.value == AllSpecs(profiles)
    ensures r.Err? <==> exists p :: p in profiles && p.c == p.g && p.ciProfileId != 7 &&
                                    (p.giProfileInfo.Failed? || (p.giProfileInfo.Success? && p.placements.Failed?))
    ensures r.Ok? ==> forall s :: s in r.value <==> exists p :: p in profiles && Offers(p, s)
    ensures r.Ok? ==> IsMaximum(gpu.maxCapacities, r.value) && IsLargestSize(gpu.memSliceCount, r.value)
  {
    AllSpecsAre(profiles);
    hide IsMaximum, IsLargestSize;
    var w := InitialWalk();
    for i := 0 to |profiles|
      invariant w.Valid() && w.infos == AllSpecs(profiles[..i])
      invariant forall k :: 0 <= k < i ==> !profiles[k].Fails()
      invariant unchanged(gpu)
    {
      assert profiles[..i + 1][..i] == profiles[..i];
      var v := VisitMigProfile(profiles[i], w);
      if v.Err? {
        assert profiles[i] in profiles;
        return Err(v.error);
      }
      w := v.value;
    }
    assert profiles[..|profiles|] == profiles;
    gpu.AddDetailAfterWalkingMigProfiles(w.maxCapacities, w.maxMemSlicesConsumed);
    return Ok(w.infos);
  }

  /** The visitor called for every profile. */
  method VisitMigProfile(p: MigProfile, w: Walk) returns (r: Result<Walk>)
    requires w.Valid()
    ensures r.Err? <==> p.Fails()
    ensures r.Ok? ==> r.value.Valid() && r.value.infos == w.infos + p.Specs()
  {
    if p.c != p.g {
      return Ok(w);
    }
    if p.ciProfileId == COMPUTE_INSTANCE_PROFILE_1_SLICE_REV1 {
      return Ok(w);
    }
    if p.giProfileInfo.Skips() {
      return Ok(w);
    }
    if !p.giProfileInfo.Success? {
      return Err(DeviceFailure);
    }
    if p.placements.Skips() {
      return Ok(w);
    }
    if !p.placements.Success? {
      return Err(DeviceFailure);
    }
    var infos, maxCapacities, maxSlices :=
      VisitPlacements(p.giProfileInfo.value, p.placements.value, w.infos, w.maxCapacities, w.maxMemSlicesConsumed);
    return Ok(Walk(infos, maxCapacities, maxSlices));
  }

  method VisitPlacements(
    profile: GiProfileInfo, placements: seq<Placement>, infos: seq<MigSpec>, maxCapacities: Capacities, maxSlices: nat)
    returns (infos': seq<MigSpec>, maxCapacities': Capacities, maxSlices': nat)
    requires IsMaximum(maxCapacities, infos) && IsLargestSize(maxSlices, infos)
    ensures infos' == infos + seq(|placements|, i requires 0 <= i < |placements| => MigSpec(profile, placements[i]))
    ensures IsMaximum(maxCapacities', infos') && IsLargestSize(maxSlices', infos')
  {
    infos', maxCapacities', maxSlices' := infos, maxCapacities, maxSlices;
    for i := 0 to |placements|
      invariant infos' == infos + seq(i, k requires 0 <= k < i => MigSpec(profile, placements[k]))
      invariant IsMaximum(maxCapacities', infos') && IsLargestSize(maxSlices', infos')
    {
      var mi := MigSpec(profile, placements[i]);
      ghost var before, maxBefore := infos', maxCapacities';
      maxCapacities' := SetMaxAll(maxCapacities', CommonCapacitiesMig(profile));
      MaximumGrows(maxBefore, before, mi, maxCapacities');
      infos' := infos' + [mi];
      assert mi in infos';
      if maxSlices' < placements[i].size {
        maxSlices' := placements[i].size;
      } else if maxSlices' != 0 {
        assert exists s :: s in before && s.placement.size == maxSlices';
      }
    }
  }

  /** What the walk promises to the scheduler: a spec consumes, counter by counter, no more than the
      shared set exactly when its placement ends within the counted slices (the code assumes that the
      largest profile spans them all). */
  lemma SpecFitsSharedCounters(
    shared: Counters, maxCapacities: Capacities, memSliceCount: nat, specs: seq<MigSpec>, s: MigSpec, used: Counters)
    requires IsMaximum(maxCapacities, specs) && s in specs
    requires IsConsumption(shared, maxCapacities, Placement(0, memSliceCount))
    requires IsConsumption(used, CommonCapacitiesMig(s.profile), s.placement)
    ensures (forall name :: name in used ==> At(used, name) <= At(shared, name))
            <==> (s.placement.size == 0 || s.placement.start + s.placement.size <= memSliceCount)
  {
    if s.placement.size == 0 || s.placement.start + s.placement.size <= memSliceCount {
      forall name | name in used ensures At(used, name) <= At(shared, name) {
        SpecFitsAt(shared, maxCapacities, memSliceCount, specs, s, used, name);
      }
    } else {
      var last := s.placement.start + s.placement.size - 1;
      ConsumptionOfSlice(used, CommonCapacitiesMig(s.profile), s.placement, last);
      ConsumptionOfSlice(shared, maxCapacities, Placement(0, memSliceCount), last);
      assert MemSliceCounterName(last) in used;
    }
  }

  lemma SpecFitsAt(
    shared: Counters, maxCapacities: Capacities, memSliceCount: nat, specs: seq<MigSpec>, s: MigSpec, used: Counters,
    name: string)
    requires IsMaximum(maxCapacities, specs) && s in specs
    requires IsConsumption(shared, maxCapacities, Placement(0, memSliceCount))
    requires IsConsumption(used, CommonCapacitiesMig(s.profile), s.placement)
    requires s.placement.size == 0 || s.placement.start + s.placement.size <= memSliceCount
    requires name in used
    ensures At(used, name) <= At(shared, name)
  {
    hide MemSliceCounterName, CounterName, CommonCapacitiesMig;
    var caps := CommonCapacitiesMig(s.profile);
    var base :| CountsCapacities(base, caps) && used == base + SliceCounters(s.placement.start, s.placement.size);
    if name in SliceCounters(s.placement.start, s.placement.size) {
      var i: nat :| s.placement.start <= i < s.placement.start + s.placement.size && MemSliceCounterName(i) == name;
      ConsumptionOfSlice(used, caps, s.placement, i);
      ConsumptionOfSlice(shared, maxCapacities, Placement(0, memSliceCount), i);
    } else {
      var n :| n in caps && CounterName(n) == name;
      CapacityFits(shared, maxCapacities, Placement(0, memSliceCount), used, caps, s.placement, n);
    }
  }

  lemma CapacityFits(
    shared: Counters, m: Capacities, p: Placement, used: Counters, caps: Capacities, q: Placement, n: Capacity)
    requires IsConsumption(shared, m, p) && IsConsumption(used, caps, q)
    requires Bounds(m, caps) && n in caps
    ensures At(used, CounterName(n)) <= At(shared, CounterName(n))
  {
    ConsumptionOfCapacity(used, caps, q, n);
    ConsumptionOfCapacity(shared, m, p, n);
  }
}
