/** The bundle sharder: turns the splits of every module into "unfused shards",
    lists of splits each of which the merger later fuses into one standalone APK.

    The pure parts (subsets, partitions, the grouping checks, APEX grouping) are
    functions; `generateSplits`, the shard-building loops of `groupSplitsToShards`
    and the entry points that call them are methods proved equal to those
    functions. */
module BundleSharder {
  import opened Sequences
  import opened Targeting

  /** `BundleSharderConfiguration`: an optional single device (system-app mode only),
      whether to split by language, and whether to emit 64-bit-only ABI shards. */
  datatype SharderConfig = SharderConfig(
    deviceSpec: Option<DeviceSpec>,
    splitByLanguage: bool,
    generate64BitShard: bool)

  /** The content categories of a module that `generateSplits` splits separately. */
  datatype ContentCategory = NativeLibraries | Resources | ApexImages | Assets | Dex | Root

  /** The splitters a splitting pipeline can be made of. */
  datatype Splitter =
    | AbiNativeLibrariesSplitter(include64BitShard: bool)
    | ScreenDensityResourcesSplitter
    | LanguageResourcesSplitter
    | LanguageAssetsSplitter
    | AbiApexImagesSplitter

  /** Library code the sharder calls but whose source is not part of this model:
      the ABI and density universes of a targeting, the device matcher, the
      `ModuleSplit.forX` constructors, running a splitting pipeline,
      `SameTargetingMerger.merge` and `ModuleSplit.removeSplitName`. */
  datatype Collaborators = Collaborators(
    abiUniverse: ApkTargeting -> set<AbiAlias>,
    densityUniverse: ApkTargeting -> set<ScreenDensity>,
    matchesDevice: (ModuleSplit, DeviceSpec) -> bool,
    splitFor: (BundleModule, ContentCategory) -> ModuleSplit,
    runPipeline: (seq<Splitter>, ModuleSplit) -> seq<ModuleSplit>,
    mergeSameTargeting: seq<ModuleSplit> -> seq<ModuleSplit>,
    removeSplitName: ModuleSplit -> ModuleSplit)

  /** The user-facing error (`CommandExecutionException`). */
  datatype UserReason = AbiUniverseMismatch

  /** The exception a failed `checkState`, `checkArgument` or `getOnlyElement` throws. */
  datatype DefectException = IllegalState | IllegalArgument | NoSuchElement

  datatype DefectReason =
    | DeviceSpecUnexpected
    | DeviceSpecMissing
    | NoModules
    | MasterSplitCount(count: nat)
    | NoMasterSplit
    | MasterTargetingNotDefault
    | AbiAndDensityOverlap
    | DensityUniverseMismatch
    | NotExactlyOne(count: nat)

  /** A user error, or a defect: an internal invariant the code checks and that
      only a misbehaving collaborator or caller can break. */
  datatype ShardingError =
    | CommandExecution(userReason: UserReason)
    | Defect(exception: DefectException, reason: DefectReason)

  datatype Outcome<T> = Ok(value: T) | Err(error: ShardingError)

  /** What `shardForSystemApps` hands to `mergeSystemShard`. */
  datatype SystemShardRequest = SystemShardRequest(
    shard: seq<ModuleSplit>,
    fusingModuleNames: seq<string>,
    deviceSpec: DeviceSpec)

  // ---------------------------------------------------------------------------
  // Split generation

  /** The dimension a splitter splits along; `None` for the APEX image splitter,
      which splits by multi-ABI whatever dimensions are enabled. */
  function SplitterDimension(s: Splitter): Option<OptimizationDimension> {
    match s
    case AbiNativeLibrariesSplitter(_) => Some(AbiDimension)
    case ScreenDensityResourcesSplitter => Some(ScreenDensityDimension)
    case LanguageResourcesSplitter => Some(LanguageDimension)
    case LanguageAssetsSplitter => Some(LanguageDimension)
    case AbiApexImagesSplitter => None
  }

  /** Language splitting needs both the dimension and the configuration flag. */
  predicate LanguageSplittingEnabled(dims: set<OptimizationDimension>, cfg: SharderConfig) {
    LanguageDimension in dims && cfg.splitByLanguage
  }

  function NativeLibrariesPipeline(dims: set<OptimizationDimension>, cfg: SharderConfig): (r: seq<Splitter>)
    ensures forall sp :: sp in r ==> sp == AbiNativeLibrariesSplitter(cfg.generate64BitShard)
    ensures r != [] <==> AbiDimension in dims
  {
    if AbiDimension in dims then [AbiNativeLibrariesSplitter(cfg.generate64BitShard)] else []
  }

  function ResourcesPipeline(dims: set<OptimizationDimension>, cfg: SharderConfig): (r: seq<Splitter>)
    ensures forall sp :: sp in r ==> SplitterDimension(sp).Some? && SplitterDimension(sp).value in dims
    ensures ScreenDensityResourcesSplitter in r <==> ScreenDensityDimension in dims
    ensures LanguageResourcesSplitter in r <==> LanguageSplittingEnabled(dims, cfg)
    ensures ScreenDensityDimension in dims ==> r[0] == ScreenDensityResourcesSplitter
  {
    (if ScreenDensityDimension in dims then [ScreenDensityResourcesSplitter] else [])
    + (if LanguageSplittingEnabled(dims, cfg) then [LanguageResourcesSplitter] else [])
  }

  function AssetsPipeline(dims: set<OptimizationDimension>, cfg: SharderConfig): (r: seq<Splitter>)
    ensures forall sp :: sp in r ==> sp == LanguageAssetsSplitter
    ensures r != [] <==> LanguageSplittingEnabled(dims, cfg)
  {
    if LanguageSplittingEnabled(dims, cfg) then [LanguageAssetsSplitter] else []
  }

  /** APEX images are always split by multi-ABI, whatever dimensions are enabled. */
  function ApexImagesPipeline(): seq<Splitter> {
    [AbiApexImagesSplitter]
  }

  predicate IsMaster(s: ModuleSplit) { s.isMasterSplit }

  /** The splits of one module before merging: each content category through its
      pipeline, in the order native libraries, resources, APEX images, assets,
      then the dex and root-file splits. */
  function RawSplits(
    bundleModule: BundleModule, dims: set<OptimizationDimension>, cfg: SharderConfig, env: Collaborators)
    : seq<ModuleSplit>
  {
    env.runPipeline(NativeLibrariesPipeline(dims, cfg), env.splitFor(bundleModule, NativeLibraries))
    + env.runPipeline(ResourcesPipeline(dims, cfg), env.splitFor(bundleModule, Resources))
    + env.runPipeline(ApexImagesPipeline(), env.splitFor(bundleModule, ApexImages))
    + env.runPipeline(AssetsPipeline(dims, cfg), env.splitFor(bundleModule, Assets))
    + [env.splitFor(bundleModule, Dex), env.splitFor(bundleModule, Root)]
  }

  /** The splits of one module after merging same-targeted splits and removing
      split names. */
  function MergedSplits(
    bundleModule: BundleModule, dims: set<OptimizationDimension>, cfg: SharderConfig, env: Collaborators)
    : seq<ModuleSplit>
  {
    MapSeq(env.mergeSameTargeting(RawSplits(bundleModule, dims, cfg, env)), env.removeSplitName)
  }

  /** The merged splits of one module, or the defect raised when there is not
      exactly one master among them. */
  function ModuleSplitsOf(
    bundleModule: BundleModule, dims: set<OptimizationDimension>, cfg: SharderConfig, env: Collaborators)
    : Outcome<seq<ModuleSplit>>
  {
    var merged := MergedSplits(bundleModule, dims, cfg, env);
    var masterCount := |Filter(merged, IsMaster)|;
    if masterCount == 1 then Ok(merged)
    else Err(Defect(IllegalState, MasterSplitCount(masterCount)))
  }

  /** `generateSplits`: collects the splits of every content category into a
      builder, merges same-targeted splits, clears split names, and checks that
      exactly one master split is left. */
  method GenerateSplits(
    bundleModule: BundleModule, dims: set<OptimizationDimension>, cfg: SharderConfig, env: Collaborators)
    returns (r: Outcome<seq<ModuleSplit>>)
    ensures r == ModuleSplitsOf(bundleModule, dims, cfg, env)
    ensures r.Ok? ==> |Filter(r.value, IsMaster)| == 1
    ensures r.Err? ==> r.error.Defect? && r.error.reason.MasterSplitCount? && r.error.reason.count != 1
  {
    var rawSplits: seq<ModuleSplit> := [];
    rawSplits := rawSplits
      + env.runPipeline(NativeLibrariesPipeline(dims, cfg), env.splitFor(bundleModule, NativeLibraries));
    rawSplits := rawSplits
      + env.runPipeline(ResourcesPipeline(dims, cfg), env.splitFor(bundleModule, Resources));
    rawSplits := rawSplits
      + env.runPipeline(ApexImagesPipeline(), env.splitFor(bundleModule, ApexImages));
    rawSplits := rawSplits
      + env.runPipeline(AssetsPipeline(dims, cfg), env.splitFor(bundleModule, Assets));
    ghost var categorySplits := rawSplits;
    rawSplits := rawSplits + [env.splitFor(bundleModule, Dex)];
    rawSplits := rawSplits + [env.splitFor(bundleModule, Root)];
    assert rawSplits == categorySplits + [env.splitFor(bundleModule, Dex), env.splitFor(bundleModule, Root)];
    assert rawSplits == RawSplits(bundleModule, dims, cfg, env);
    assert MapSeq(env.mergeSameTargeting(rawSplits), env.removeSplitName) == MergedSplits(bundleModule, dims, cfg, env);

    var mergedSplits := env.mergeSameTargeting(rawSplits);
    mergedSplits := MapSeq(mergedSplits, env.removeSplitName);

    var masterSplitCount := |Filter(mergedSplits, IsMaster)|;
    if masterSplitCount != 1 {
      return Err(Defect(IllegalState, MasterSplitCount(masterSplitCount)));
    }
    return Ok(mergedSplits);
  }

  // ---------------------------------------------------------------------------
  // Subsets of the splits

  /** With no device spec every split passes; otherwise only those the matcher accepts. */
  predicate DeviceAdmits(split: ModuleSplit, cfg: SharderConfig, env: Collaborators) {
    match cfg.deviceSpec
    case None => true
    case Some(spec) => env.matchesDevice(split, spec)
  }

  /** The filter of `subsetWithTargeting`: the dimension is targeted and the
      device spec, if any, admits the split. */
  function SubsetFilter(hasTargeting: ApkTargeting -> bool, cfg: SharderConfig, env: Collaborators)
    : ModuleSplit -> bool
  {
    (x: ModuleSplit) => hasTargeting(x.targeting) && DeviceAdmits(x, cfg, env)
  }

  /** `subsetWithTargeting`: the distinct splits whose targeting satisfies
      `hasTargeting` and that the device spec, if any, admits. */
  function SubsetWithTargeting(
    splits: seq<ModuleSplit>, hasTargeting: ApkTargeting -> bool, cfg: SharderConfig, env: Collaborators)
    : (r: seq<ModuleSplit>)
    ensures NoDuplicates(r)
    ensures forall x :: x in r <==> x in splits && hasTargeting(x.targeting) && DeviceAdmits(x, cfg, env)
  {
    Distinct(Filter(splits, SubsetFilter(hasTargeting, cfg, env)))
  }

  /** `getMasterSplits`: the distinct master splits; a defect when there is none
      or when one of them has a non-default targeting. Never filtered by device. */
  function GetMasterSplits(splits: seq<ModuleSplit>): (r: Outcome<seq<ModuleSplit>>)
    ensures r.Ok? <==>
      (exists x :: x in splits && x.isMasterSplit)
      && (forall x :: x in splits && x.isMasterSplit ==> x.targeting == DefaultTargeting)
    ensures r.Ok? ==> NoDuplicates(r.value) && forall x :: x in r.value <==> x in splits && x.isMasterSplit
    ensures r.Err? && (forall x :: x in splits ==> !x.isMasterSplit) ==> r.error == Defect(IllegalState, NoMasterSplit)
    ensures r.Err? && (exists x :: x in splits && x.isMasterSplit) ==> r.error == Defect(IllegalState, MasterTargetingNotDefault)
  {
    var masterSplits := Distinct(Filter(splits, IsMaster));
    if |masterSplits| < 1 then
      Err(Defect(IllegalState, NoMasterSplit))
    else if exists x :: x in masterSplits && x.targeting != DefaultTargeting then
      Err(Defect(IllegalState, MasterTargetingNotDefault))
    else
      assert masterSplits[0] in masterSplits;
      assert forall x :: x in splits && x.isMasterSplit ==> x in masterSplits;
      Ok(masterSplits)
  }

  predicate IsLanguageSplit(s: ModuleSplit) { HasLanguageTargeting(s.targeting) }

  /** `getLanguageSplits`: the distinct language-targeted splits. Never filtered by device. */
  function GetLanguageSplits(splits: seq<ModuleSplit>): (r: seq<ModuleSplit>)
    ensures NoDuplicates(r)
    ensures forall x :: x in r <==> x in splits && HasLanguageTargeting(x.targeting)
  {
    Distinct(Filter(splits, IsLanguageSplit))
  }

  function TargetingOf(s: ModuleSplit): ApkTargeting { s.targeting }

  /** The distinct targetings of `splits`, in first-encounter order: the keys of
      the multimap `partitionByTargeting` builds. */
  function PartitionKeys(splits: seq<ModuleSplit>): seq<ApkTargeting> {
    Distinct(MapSeq(splits, TargetingOf))
  }

  lemma KeyOfSplit(splits: seq<ModuleSplit>, t: ApkTargeting)
    ensures t in PartitionKeys(splits) <==> exists x :: x in splits && x.targeting == t
  {
    var ts := MapSeq(splits, TargetingOf);
    if t in ts {
      var i :| 0 <= i < |ts| && ts[i] == t;
      assert splits[i] in splits;
    }
    if exists x :: x in splits && x.targeting == t {
      var x :| x in splits && x.targeting == t;
      var i :| 0 <= i < |splits| && splits[i] == x;
      assert ts[i] == t;
    }
  }

  function TargetedBy(key: ApkTargeting): ModuleSplit -> bool {
    (x: ModuleSplit) => x.targeting == key
  }

  /** The group of `partitionByTargeting` for one key: the splits with that
      targeting, in their original order. */
  function GroupWithKey(splits: seq<ModuleSplit>, key: ApkTargeting): seq<ModuleSplit> {
    Filter(splits, TargetedBy(key))
  }

  /** `partitionByTargeting`: one group per distinct targeting, groups in the order
      their targeting is first encountered, each group holding the splits with
      that targeting in their original order. */
  function PartitionByTargeting(splits: seq<ModuleSplit>): (r: seq<seq<ModuleSplit>>)
    ensures |r| == |PartitionKeys(splits)|
    ensures forall k :: 0 <= k < |r| ==> r[k] != []
    ensures forall k, x :: 0 <= k < |r| ==>
      (x in r[k] <==> x in splits && x.targeting == PartitionKeys(splits)[k])
    ensures forall x :: x in splits ==> exists k :: 0 <= k < |r| && x in r[k]
  {
    var keys := PartitionKeys(splits);
    var r := seq(|keys|, k requires 0 <= k < |keys| => GroupWithKey(splits, keys[k]));
    assert forall k :: 0 <= k < |r| ==> r[k] != [] by {
      forall k | 0 <= k < |r| ensures r[k] != [] {
        KeyOfSplit(splits, keys[k]);
        var x :| x in splits && x.targeting == keys[k];
        assert x in r[k];
      }
    }
    assert forall x :: x in splits ==> exists k :: 0 <= k < |r| && x in r[k] by {
      forall x | x in splits ensures exists k :: 0 <= k < |r| && x in r[k] {
        KeyOfSplit(splits, x.targeting);
        var k :| 0 <= k < |keys| && keys[k] == x.targeting;
        assert x in r[k];
      }
    }
    r
  }

  /** `nonEmpty`: an empty partition becomes a single empty group, so that the
      cartesian product below still has one member. */
  function NonEmpty<T>(groups: seq<seq<T>>): (r: seq<seq<T>>)
    ensures r != []
    ensures groups != [] ==> r == groups
    ensures forall g :: g in r ==> g in groups || g == []
  {
    if groups == [] then [[]] else groups
  }

  /** The non-empty universes of `splits`, one per split that has targeting in
      the universe's dimension, in order (duplicates kept). */
  function NonEmptyUniverses<U(!new)>(splits: seq<ModuleSplit>, universe: ApkTargeting -> set<U>)
    : (r: seq<set<U>>)
    ensures forall u :: u in r <==> u != {} && exists x :: x in splits && universe(x.targeting) == u
  {
    if splits == [] then []
    else
      var rest := NonEmptyUniverses(splits[1..], universe);
      assert forall x :: x in splits[1..] ==> x in splits;
      assert forall x :: x in splits ==> x == splits[0] || x in splits[1..];
      if universe(splits[0].targeting) == {} then rest else [universe(splits[0].targeting)] + rest
  }

  /** Every two splits that have a non-empty universe have the same one. */
  ghost predicate UniversesAgree<U>(splits: seq<ModuleSplit>, universe: ApkTargeting -> set<U>) {
    forall a, b :: a in splits && b in splits && universe(a.targeting) != {} && universe(b.targeting) != {}
      ==> universe(a.targeting) == universe(b.targeting)
  }

  lemma DistinctUniversesIff<U(!new)>(splits: seq<ModuleSplit>, universe: ApkTargeting -> set<U>)
    ensures |Distinct(NonEmptyUniverses(splits, universe))| <= 1 <==> UniversesAgree(splits, universe)
  {
    var us := NonEmptyUniverses(splits, universe);
    DistinctAtMostOne(us);
    if |Distinct(us)| <= 1 {
      forall a, b | a in splits && b in splits && universe(a.targeting) != {} && universe(b.targeting) != {}
        ensures universe(a.targeting) == universe(b.targeting)
      {
        assert universe(a.targeting) in us && universe(b.targeting) in us;
      }
    } else {
      var i, j :| 0 <= i < |us| && 0 <= j < |us| && us[i] != us[j];
      assert us[i] in us && us[j] in us;
      var a :| a in splits && universe(a.targeting) == us[i];
      var b :| b in splits && universe(b.targeting) == us[j];
    }
  }

  /** `sameTargetedUniverse`: at most one distinct non-empty universe among the
      splits, that is, all non-empty universes agree; splits with an empty
      universe are ignored. */
  function SameTargetedUniverse<U(==,!new)>(splits: seq<ModuleSplit>, universe: ApkTargeting -> set<U>)
    : (r: bool)
    ensures r <==> UniversesAgree(splits, universe)
  {
    DistinctUniversesIff(splits, universe);
    |Distinct(NonEmptyUniverses(splits, universe))| <= 1
  }

  /** No split is in both subsets: `Sets.intersection(..).isEmpty()`. */
  function Disjoint(a: seq<ModuleSplit>, b: seq<ModuleSplit>): (r: bool)
    ensures r <==> (set x | x in a) * (set x | x in b) == {}
  {
    assert forall x :: x in a && x in b ==> x in (set x | x in a) * (set x | x in b);
    forall x :: x in a ==> x !in b
  }

  // ---------------------------------------------------------------------------
  // Shards

  /** One unfused shard: all master splits, all language splits, one ABI group and
      one density group, in that order. */
  function Shard(
    masters: seq<ModuleSplit>, languages: seq<ModuleSplit>,
    abiGroup: seq<ModuleSplit>, densityGroup: seq<ModuleSplit>): seq<ModuleSplit>
  {
    masters + languages + abiGroup + densityGroup
  }

  /** The shards for one ABI group, one per density group, in order. */
  function ShardRow(
    masters: seq<ModuleSplit>, languages: seq<ModuleSplit>,
    abiGroup: seq<ModuleSplit>, densityGroups: seq<seq<ModuleSplit>>): seq<seq<ModuleSplit>>
  {
    if densityGroups == [] then []
    else
      ShardRow(masters, languages, abiGroup, densityGroups[..|densityGroups| - 1])
      + [Shard(masters, languages, abiGroup, densityGroups[|densityGroups| - 1])]
  }

  /** The cartesian product ABI groups x density groups, ABI groups outermost. */
  function CartesianShards(
    masters: seq<ModuleSplit>, languages: seq<ModuleSplit>,
    abiGroups: seq<seq<ModuleSplit>>, densityGroups: seq<seq<ModuleSplit>>): seq<seq<ModuleSplit>>
  {
    if abiGroups == [] then []
    else
      CartesianShards(masters, languages, abiGroups[..|abiGroups| - 1], densityGroups)
      + ShardRow(masters, languages, abiGroups[|abiGroups| - 1], densityGroups)
  }

  function AbiSplits(splits: seq<ModuleSplit>, cfg: SharderConfig, env: Collaborators): seq<ModuleSplit> {
    SubsetWithTargeting(splits, HasAbiTargeting, cfg, env)
  }

  function DensitySplits(splits: seq<ModuleSplit>, cfg: SharderConfig, env: Collaborators): seq<ModuleSplit> {
    SubsetWithTargeting(splits, HasScreenDensityTargeting, cfg, env)
  }

  function AbiGroups(splits: seq<ModuleSplit>, cfg: SharderConfig, env: Collaborators): seq<seq<ModuleSplit>> {
    NonEmpty(PartitionByTargeting(AbiSplits(splits, cfg, env)))
  }

  function DensityGroups(splits: seq<ModuleSplit>, cfg: SharderConfig, env: Collaborators): seq<seq<ModuleSplit>> {
    NonEmpty(PartitionByTargeting(DensitySplits(splits, cfg, env)))
  }

  /** `groupSplitsToShards` as a value: the checks in the order `groupSplitsToShards`
      performs them (master splits, ABI/density overlap, density universe, ABI
      universe), then the product. */
  function Grouping(splits: seq<ModuleSplit>, cfg: SharderConfig, env: Collaborators)
    : (r: Outcome<seq<seq<ModuleSplit>>>)
    ensures GetMasterSplits(splits).Err? ==> r == Err(GetMasterSplits(splits).error)
    ensures r.Ok? ==>
      && GetMasterSplits(splits).Ok?
      && Disjoint(AbiSplits(splits, cfg, env), DensitySplits(splits, cfg, env))
      && UniversesAgree(DensitySplits(splits, cfg, env), env.densityUniverse)
      && UniversesAgree(AbiSplits(splits, cfg, env), env.abiUniverse)
    ensures r.Err? ==> r.error.Defect? || r.error == CommandExecution(AbiUniverseMismatch)
  {
    var abiSplits := AbiSplits(splits, cfg, env);
    var densitySplits := DensitySplits(splits, cfg, env);
    var languageSplits := GetLanguageSplits(splits);
    match GetMasterSplits(splits)
    case Err(e) => Err(e)
    case Ok(masterSplits) =>
      if !Disjoint(abiSplits, densitySplits) then
        Err(Defect(IllegalState, AbiAndDensityOverlap))
      else if !SameTargetedUniverse(densitySplits, env.densityUniverse) then
        Err(Defect(IllegalState, DensityUniverseMismatch))
      else if !SameTargetedUniverse(abiSplits, env.abiUniverse) then
        Err(CommandExecution(AbiUniverseMismatch))
      else
        Ok(CartesianShards(masterSplits, languageSplits,
                           AbiGroups(splits, cfg, env), DensityGroups(splits, cfg, env)))
  }

  /** `groupSplitsToShards`: the checks, then the nested loops over ABI groups and
      density groups that fill the shard list. */
  method GroupSplitsToShards(splits: seq<ModuleSplit>, cfg: SharderConfig, env: Collaborators)
    returns (r: Outcome<seq<seq<ModuleSplit>>>)
    ensures r == Grouping(splits, cfg, env)
  {
    var abiSplits := AbiSplits(splits, cfg, env);
    var densitySplits := DensitySplits(splits, cfg, env);
    var languageSplits := GetLanguageSplits(splits);
    var masters := GetMasterSplits(splits);
    if masters.Err? {
      return Err(masters.error);
    }
    var masterSplits := masters.value;

    if !Disjoint(abiSplits, densitySplits) {
      return Err(Defect(IllegalState, AbiAndDensityOverlap));
    }
    if !SameTargetedUniverse(densitySplits, env.densityUniverse) {
      return Err(Defect(IllegalState, DensityUniverseMismatch));
    }
    if !SameTargetedUniverse(abiSplits, env.abiUniverse) {
      return Err(CommandExecution(AbiUniverseMismatch));
    }

    var abiSplitsSubsets := NonEmpty(PartitionByTargeting(abiSplits));
    var densitySplitsSubsets := NonEmpty(PartitionByTargeting(densitySplits));

    var shards := FillShards(masterSplits, languageSplits, abiSplitsSubsets, densitySplitsSubsets);
    return Ok(shards);
  }

  /** The nested loops of `groupSplitsToShards`: for each ABI group, for each
      density group, append the shard that fuses them with every master and
      language split. */
  method FillShards(
    masterSplits: seq<ModuleSplit>, languageSplits: seq<ModuleSplit>,
    abiSplitsSubsets: seq<seq<ModuleSplit>>, densitySplitsSubsets: seq<seq<ModuleSplit>>)
    returns (shards: seq<seq<ModuleSplit>>)
    ensures shards == CartesianShards(masterSplits, languageSplits, abiSplitsSubsets, densitySplitsSubsets)
  {
    shards := [];
    for i := 0 to |abiSplitsSubsets|
      invariant shards == CartesianShards(masterSplits, languageSplits, abiSplitsSubsets[..i], densitySplitsSubsets)
    {
      var abiSplitsSubset := abiSplitsSubsets[i];
      for j := 0 to |densitySplitsSubsets|
        invariant shards ==
          CartesianShards(masterSplits, languageSplits, abiSplitsSubsets[..i], densitySplitsSubsets)
          + ShardRow(masterSplits, languageSplits, abiSplitsSubset, densitySplitsSubsets[..j])
      {
        shards := shards + [masterSplits + languageSplits + abiSplitsSubset + densitySplitsSubsets[j]];
        assert densitySplitsSubsets[..j + 1][..j] == densitySplitsSubsets[..j];
      }
      assert densitySplitsSubsets[..|densitySplitsSubsets|] == densitySplitsSubsets;
      assert abiSplitsSubsets[..i + 1][..i] == abiSplitsSubsets[..i];
    }
    assert abiSplitsSubsets[..|abiSplitsSubsets|] == abiSplitsSubsets;
  }

  // ---------------------------------------------------------------------------
  // APEX grouping

  /** `Iterables.getOnlyElement`. */
  function OnlyElement<T>(s: seq<T>): (r: Outcome<T>)
    ensures r.Ok? <==> |s| == 1
    ensures r.Ok? ==> s == [r.value]
    ensures |s| == 0 ==> r == Err(Defect(NoSuchElement, NotExactlyOne(0)))
    ensures |s| > 1 ==> r == Err(Defect(IllegalArgument, NotExactlyOne(|s|)))
  {
    if |s| == 0 then Err(Defect(NoSuchElement, NotExactlyOne(0)))
    else if |s| > 1 then Err(Defect(IllegalArgument, NotExactlyOne(|s|)))
    else Ok(s[0])
  }

  /** The splits of an APEX module that are not in the multi-ABI subset (a set
      difference, in encounter order). */
  function ApexMasterCandidates(splits: seq<ModuleSplit>, cfg: SharderConfig, env: Collaborators)
    : (r: seq<ModuleSplit>)
    ensures NoDuplicates(r)
    ensures forall x :: x in r <==>
      x in splits && !(HasMultiAbiTargeting(x.targeting) && DeviceAdmits(x, cfg, env))
  {
    var multiAbiSplits := SubsetWithTargeting(splits, HasMultiAbiTargeting, cfg, env);
    Filter(Distinct(splits), x => x !in multiAbiSplits)
  }

  /** `groupSplitsToShardsForApex`: the one split outside the multi-ABI subset must
      be a default-targeted master; it is paired with each multi-ABI split. */
  function GroupSplitsToShardsForApex(splits: seq<ModuleSplit>, cfg: SharderConfig, env: Collaborators)
    : (r: Outcome<seq<seq<ModuleSplit>>>)
    ensures r.Ok? ==> |r.value| == |SubsetWithTargeting(splits, HasMultiAbiTargeting, cfg, env)|
    ensures r.Ok? ==> forall shard: seq<ModuleSplit> :: shard in r.value ==>
      && |shard| == 2
      && shard[0] in splits && shard[0].targeting == DefaultTargeting
      && shard[1] in splits && HasMultiAbiTargeting(shard[1].targeting) && DeviceAdmits(shard[1], cfg, env)
  {
    var multiAbiSplits := SubsetWithTargeting(splits, HasMultiAbiTargeting, cfg, env);
    match OnlyElement(ApexMasterCandidates(splits, cfg, env))
    case Err(e) => Err(e)
    case Ok(masterSplit) =>
      if masterSplit.targeting != DefaultTargeting then
        Err(Defect(IllegalState, MasterTargetingNotDefault))
      else
        Ok(MapSeq(multiAbiSplits, abiSplit => [masterSplit, abiSplit]))
  }

  // ---------------------------------------------------------------------------
  // Entry points

  /** The flat list of every module's splits, module by module; the first module
      whose split generation fails decides the error. */
  function FlatSplits(
    modules: seq<BundleModule>, dims: set<OptimizationDimension>, cfg: SharderConfig, env: Collaborators)
    : Outcome<seq<ModuleSplit>>
  {
    if modules == [] then Ok([])
    else
      match FlatSplits(modules[..|modules| - 1], dims, cfg, env)
      case Err(e) => Err(e)
      case Ok(init) =>
        match ModuleSplitsOf(modules[|modules| - 1], dims, cfg, env)
        case Err(e) => Err(e)
        case Ok(last) => Ok(init + last)
  }

  /** `generateUnfusedShards` as a value. */
  function UnfusedShards(
    modules: seq<BundleModule>, dims: set<OptimizationDimension>, cfg: SharderConfig, env: Collaborators)
    : Outcome<seq<seq<ModuleSplit>>>
  {
    if modules == [] then Err(Defect(IllegalArgument, NoModules))
    else
      match FlatSplits(modules, dims, cfg, env)
      case Err(e) => Err(e)
      case Ok(splits) => Grouping(splits, cfg, env)
  }

  /** `generateUnfusedShards`: at least one module; the splits of all modules,
      flattened in module order, grouped into shards. */
  method GenerateUnfusedShards(
    modules: seq<BundleModule>, dims: set<OptimizationDimension>, cfg: SharderConfig, env: Collaborators)
    returns (r: Outcome<seq<seq<ModuleSplit>>>)
    ensures r == UnfusedShards(modules, dims, cfg, env)
  {
    if |modules| == 0 {
      return Err(Defect(IllegalArgument, NoModules));
    }
    var moduleSplits := CollectSplits(modules, dims, cfg, env);
    if moduleSplits.Err? {
      return Err(moduleSplits.error);
    }
    r := GroupSplitsToShards(moduleSplits.value, cfg, env);
  }

  /** The `flatMap` of `generateUnfusedShards`: generates the splits of each
      module in turn and appends them to one list. */
  method CollectSplits(
    modules: seq<BundleModule>, dims: set<OptimizationDimension>, cfg: SharderConfig, env: Collaborators)
    returns (r: Outcome<seq<ModuleSplit>>)
    ensures r == FlatSplits(modules, dims, cfg, env)
  {
    var moduleSplits: seq<ModuleSplit> := [];
    for i := 0 to |modules|
      invariant FlatSplits(modules[..i], dims, cfg, env) == Ok(moduleSplits)
    {
      var splits := GenerateSplits(modules[i], dims, cfg, env);
      assert modules[..i + 1][..i] == modules[..i];
      if splits.Err? {
        assert FlatSplits(modules[..i + 1], dims, cfg, env) == Err(splits.error);
        FlatSplitsKeepsError(modules, i + 1, dims, cfg, env);
        return Err(splits.error);
      }
      moduleSplits := moduleSplits + splits.value;
    }
    assert modules[..|modules|] == modules;
    return Ok(moduleSplits);
  }

  /** Once a prefix of the modules fails, the whole list fails with that error. */
  lemma {:induction false} FlatSplitsKeepsError(
    modules: seq<BundleModule>, n: nat, dims: set<OptimizationDimension>, cfg: SharderConfig, env: Collaborators)
    requires n <= |modules|
    requires FlatSplits(modules[..n], dims, cfg, env).Err?
    ensures FlatSplits(modules, dims, cfg, env) == FlatSplits(modules[..n], dims, cfg, env)
    decreases |modules| - n
  {
    if n < |modules| {
      assert modules[..n + 1][..n] == modules[..n];
      FlatSplitsKeepsError(modules, n + 1, dims, cfg, env);
    } else {
      assert modules[..n] == modules;
    }
  }

  /** `shardBundle` up to the merger: general sharding refuses a device spec. */
  function BundleShards(
    modules: seq<BundleModule>, dims: set<OptimizationDimension>, cfg: SharderConfig, env: Collaborators)
    : Outcome<seq<seq<ModuleSplit>>>
  {
    if cfg.deviceSpec.Some? then Err(Defect(IllegalState, DeviceSpecUnexpected))
    else UnfusedShards(modules, dims, cfg, env)
  }

  /** `shardBundle`: the unfused shards it hands to the merger. */
  method ShardBundle(
    modules: seq<BundleModule>, dims: set<OptimizationDimension>, cfg: SharderConfig, env: Collaborators)
    returns (r: Outcome<seq<seq<ModuleSplit>>>)
    ensures r == BundleShards(modules, dims, cfg, env)
  {
    if cfg.deviceSpec.Some? {
      return Err(Defect(IllegalState, DeviceSpecUnexpected));
    }
    r := GenerateUnfusedShards(modules, dims, cfg, env);
  }

  predicate IsIncludedInFusing(m: BundleModule) { m.isIncludedInFusing }

  function NameOf(m: BundleModule): string { m.name }

  /** The names of the modules included in fusing, as an `ImmutableSet`. */
  function FusingModuleNames(modules: seq<BundleModule>): (r: seq<string>)
    ensures NoDuplicates(r)
    ensures forall n :: n in r <==> exists m :: m in modules && m.isIncludedInFusing && m.name == n
  {
    var fusing := Filter(modules, IsIncludedInFusing);
    var names := MapSeq(fusing, NameOf);
    assert forall n :: n in names <==> exists m :: m in fusing && m.name == n by {
      forall n ensures n in names <==> exists m :: m in fusing && m.name == n {
        if n in names {
          var i :| 0 <= i < |names| && names[i] == n;
          assert fusing[i] in fusing;
        }
        if exists m :: m in fusing && m.name == n {
          var m :| m in fusing && m.name == n;
          var i :| 0 <= i < |fusing| && fusing[i] == m;
          assert names[i] == n;
        }
      }
    }
    Distinct(names)
  }

  /** `shardForSystemApps` up to the merger: needs a device spec and exactly one
      unfused shard. */
  function SystemShard(
    modules: seq<BundleModule>, dims: set<OptimizationDimension>, cfg: SharderConfig, env: Collaborators)
    : Outcome<SystemShardRequest>
  {
    if cfg.deviceSpec.None? then Err(Defect(IllegalState, DeviceSpecMissing))
    else
      match UnfusedShards(modules, dims, cfg, env)
      case Err(e) => Err(e)
      case Ok(shards) =>
        match OnlyElement(shards)
        case Err(e) => Err(e)
        case Ok(shard) => Ok(SystemShardRequest(shard, FusingModuleNames(modules), cfg.deviceSpec.value))
  }

  /** `shardForSystemApps`: what it hands to `mergeSystemShard`. */
  method ShardForSystemApps(
    modules: seq<BundleModule>, dims: set<OptimizationDimension>, cfg: SharderConfig, env: Collaborators)
    returns (r: Outcome<SystemShardRequest>)
    ensures r == SystemShard(modules, dims, cfg, env)
  {
    if cfg.deviceSpec.None? {
      return Err(Defect(IllegalState, DeviceSpecMissing));
    }
    var unfused := GenerateUnfusedShards(modules, dims, cfg, env);
    if unfused.Err? {
      return Err(unfused.error);
    }
    var shard := OnlyElement(unfused.value);
    if shard.Err? {
      return Err(shard.error);
    }
    return Ok(SystemShardRequest(shard.value, FusingModuleNames(modules), cfg.deviceSpec.value));
  }

  /** `shardApexBundle` up to the merger. */
  function ApexShards(apexModule: BundleModule, cfg: SharderConfig, env: Collaborators)
    : Outcome<seq<seq<ModuleSplit>>>
  {
    match ModuleSplitsOf(apexModule, {}, cfg, env)
    case Err(e) => Err(e)
    case Ok(splits) => GroupSplitsToShardsForApex(splits, cfg, env)
  }

  /** `shardApexBundle`: splits with no optimization dimension, then APEX grouping. */
  method ShardApexBundle(apexModule: BundleModule, cfg: SharderConfig, env: Collaborators)
    returns (r: Outcome<seq<seq<ModuleSplit>>>)
    ensures r == ApexShards(apexModule, cfg, env)
  {
    var splits := GenerateSplits(apexModule, {}, cfg, env);
    if splits.Err? {
      return Err(splits.error);
    }
    r := GroupSplitsToShardsForApex(splits.value, cfg, env);
  }
}
