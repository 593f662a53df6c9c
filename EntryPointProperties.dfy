/** What the public entry points promise: each module contributes exactly one
    master split, the splits of all modules reach the shards, the system-app
    path needs a device spec and exactly one shard, and APEX grouping pairs the
    one master with every multi-ABI split. */
module EntryPointProperties {
  import opened Sequences
  import opened Targeting
  import opened BundleSharder
  import opened ShardProperties

  // ---------------------------------------------------------------------------
  // Split generation

  /** Split generation succeeds exactly when one position of the merged splits
      holds a master split, and then returns the merged splits. */
  lemma OneMasterPerModule(
    bundleModule: BundleModule, dims: set<OptimizationDimension>, cfg: SharderConfig, env: Collaborators)
    ensures ModuleSplitsOf(bundleModule, dims, cfg, env).Ok?
      <==> ExactlyOneIndex(MergedSplits(bundleModule, dims, cfg, env), IsMaster)
    ensures ModuleSplitsOf(bundleModule, dims, cfg, env).Ok?
      ==> ModuleSplitsOf(bundleModule, dims, cfg, env).value == MergedSplits(bundleModule, dims, cfg, env)
  {
    FilterCountOne(MergedSplits(bundleModule, dims, cfg, env), IsMaster);
  }

  // ---------------------------------------------------------------------------
  // Flattening the modules' splits

  /** The flat list exists exactly when every module's splits do. */
  lemma {:induction false} FlatSplitsOkIff(
    modules: seq<BundleModule>, dims: set<OptimizationDimension>, cfg: SharderConfig, env: Collaborators)
    ensures FlatSplits(modules, dims, cfg, env).Ok?
      <==> forall i :: 0 <= i < |modules| ==> ModuleSplitsOf(modules[i], dims, cfg, env).Ok?
  {
    if modules != [] {
      var n := |modules| - 1;
      FlatSplitsOkIff(modules[..n], dims, cfg, env);
      assert forall i :: 0 <= i < n ==> modules[..n][i] == modules[i];
    }
  }

  /** When flattening fails, it fails with the error of the first module whose
      split generation fails. */
  lemma {:induction false} FlatSplitsFirstError(
    modules: seq<BundleModule>, dims: set<OptimizationDimension>, cfg: SharderConfig, env: Collaborators)
    requires FlatSplits(modules, dims, cfg, env).Err?
    ensures exists i ::
      && 0 <= i < |modules|
      && ModuleSplitsOf(modules[i], dims, cfg, env) == FlatSplits(modules, dims, cfg, env)
      && forall i' :: 0 <= i' < i ==> ModuleSplitsOf(modules[i'], dims, cfg, env).Ok?
  {
    var n := |modules| - 1;
    var init := modules[..n];
    assert forall i :: 0 <= i < n ==> init[i] == modules[i];
    if FlatSplits(init, dims, cfg, env).Err? {
      FlatSplitsFirstError(init, dims, cfg, env);
      var i :| 0 <= i < |init|
        && ModuleSplitsOf(init[i], dims, cfg, env) == FlatSplits(init, dims, cfg, env)
        && forall i' :: 0 <= i' < i ==> ModuleSplitsOf(init[i'], dims, cfg, env).Ok?;
      assert modules[i] == init[i];
    } else {
      FlatSplitsOkIff(init, dims, cfg, env);
    }
  }

  /** A split is in the flat list exactly when it is among the splits of one of
      the modules. */
  lemma {:induction false} FlatSplitsMembers(
    modules: seq<BundleModule>, dims: set<OptimizationDimension>, cfg: SharderConfig, env: Collaborators)
    requires FlatSplits(modules, dims, cfg, env).Ok?
    ensures forall x :: x in FlatSplits(modules, dims, cfg, env).value <==>
      exists i :: 0 <= i < |modules| && ModuleSplitsOf(modules[i], dims, cfg, env).Ok?
        && x in ModuleSplitsOf(modules[i], dims, cfg, env).value
  {
    if modules != [] {
      var n := |modules| - 1;
      var init := modules[..n];
      FlatSplitsMembers(init, dims, cfg, env);
      assert forall i :: 0 <= i < n ==> init[i] == modules[i];
      var flat := FlatSplits(modules, dims, cfg, env).value;
      var head := FlatSplits(init, dims, cfg, env).value;
      var last := ModuleSplitsOf(modules[n], dims, cfg, env).value;
      assert flat == head + last;
      forall x | x in flat
        ensures exists i ::
          0 <= i < |modules| && ModuleSplitsOf(modules[i], dims, cfg, env).Ok?
          && x in ModuleSplitsOf(modules[i], dims, cfg, env).value
      {
        if x in head {
          var i :| 0 <= i < |init| && ModuleSplitsOf(init[i], dims, cfg, env).Ok?
            && x in ModuleSplitsOf(init[i], dims, cfg, env).value;
          assert init[i] == modules[i];
        }
      }
      forall x, i | 0 <= i < |modules| && ModuleSplitsOf(modules[i], dims, cfg, env).Ok?
          && x in ModuleSplitsOf(modules[i], dims, cfg, env).value
        ensures x in flat
      {
        if i < n {
          assert init[i] == modules[i];
        }
      }
    }
  }

  // ---------------------------------------------------------------------------
  // Unfused shards

  /** With no modules, general sharding fails with the argument check; with a
      device spec it fails with the state check before looking at the modules. */
  lemma BundleShardsPreconditions(
    modules: seq<BundleModule>, dims: set<OptimizationDimension>, cfg: SharderConfig, env: Collaborators)
    ensures cfg.deviceSpec.Some? ==> BundleShards(modules, dims, cfg, env) == Err(Defect(IllegalState, DeviceSpecUnexpected))
    ensures cfg.deviceSpec.None? && modules == []
      ==> BundleShards(modules, dims, cfg, env) == Err(Defect(IllegalArgument, NoModules))
    ensures cfg.deviceSpec.None? ==> BundleShards(modules, dims, cfg, env) == UnfusedShards(modules, dims, cfg, env)
  {
  }

  /** Every unfused shard holds the master split and every language split of
      every module, and each module has exactly one master split. */
  lemma EveryModuleInEveryShard(
    modules: seq<BundleModule>, dims: set<OptimizationDimension>, cfg: SharderConfig, env: Collaborators)
    ensures UnfusedShards(modules, dims, cfg, env).Ok? ==>
      forall i :: 0 <= i < |modules| ==>
        && ModuleSplitsOf(modules[i], dims, cfg, env).Ok?
        && ExactlyOneIndex(ModuleSplitsOf(modules[i], dims, cfg, env).value, IsMaster)
    ensures forall shard, i, x ::
      (UnfusedShards(modules, dims, cfg, env).Ok?
       && shard in UnfusedShards(modules, dims, cfg, env).value && 0 <= i < |modules|
       && ModuleSplitsOf(modules[i], dims, cfg, env).Ok?
       && x in ModuleSplitsOf(modules[i], dims, cfg, env).value
       && (x.isMasterSplit || HasLanguageTargeting(x.targeting)))
      ==> x in shard
  {
    if UnfusedShards(modules, dims, cfg, env).Ok? {
      FlatSplitsOkIff(modules, dims, cfg, env);
      FlatSplitsMembers(modules, dims, cfg, env);
      var splits := FlatSplits(modules, dims, cfg, env).value;
      assert UnfusedShards(modules, dims, cfg, env) == Grouping(splits, cfg, env);
      GroupingCoversSplits(splits, cfg, env);
      forall i | 0 <= i < |modules|
        ensures ExactlyOneIndex(ModuleSplitsOf(modules[i], dims, cfg, env).value, IsMaster)
      {
        OneMasterPerModule(modules[i], dims, cfg, env);
      }
    }
  }

  // ---------------------------------------------------------------------------
  // System apps

  /** System-app sharding needs a device spec and exactly one unfused shard;
      it then hands on that shard, the names of the fusing modules and the
      device spec. Zero shards or several are the defects `getOnlyElement`
      raises. */
  lemma SystemShardIff(
    modules: seq<BundleModule>, dims: set<OptimizationDimension>, cfg: SharderConfig, env: Collaborators)
    ensures cfg.deviceSpec.None? ==> SystemShard(modules, dims, cfg, env) == Err(Defect(IllegalState, DeviceSpecMissing))
    ensures SystemShard(modules, dims, cfg, env).Ok? <==>
      cfg.deviceSpec.Some? && UnfusedShards(modules, dims, cfg, env).Ok?
      && |UnfusedShards(modules, dims, cfg, env).value| == 1
    ensures SystemShard(modules, dims, cfg, env).Ok? ==>
      && SystemShard(modules, dims, cfg, env).value.shard == UnfusedShards(modules, dims, cfg, env).value[0]
      && SystemShard(modules, dims, cfg, env).value.deviceSpec == cfg.deviceSpec.value
      && (forall n :: n in SystemShard(modules, dims, cfg, env).value.fusingModuleNames
            <==> exists m :: m in modules && m.isIncludedInFusing && m.name == n)
    ensures (cfg.deviceSpec.Some? && UnfusedShards(modules, dims, cfg, env).Ok?
             && |UnfusedShards(modules, dims, cfg, env).value| > 1) ==>
      SystemShard(modules, dims, cfg, env)
        == Err(Defect(IllegalArgument, NotExactlyOne(|UnfusedShards(modules, dims, cfg, env).value|)))
  {
  }

  /** The system shard holds the master split and every language split of every
      module. */
  lemma SystemShardHoldsEveryModule(
    modules: seq<BundleModule>, dims: set<OptimizationDimension>, cfg: SharderConfig, env: Collaborators)
    ensures forall i, x ::
      (SystemShard(modules, dims, cfg, env).Ok?
       && 0 <= i < |modules| && ModuleSplitsOf(modules[i], dims, cfg, env).Ok?
       && x in ModuleSplitsOf(modules[i], dims, cfg, env).value
       && (x.isMasterSplit || HasLanguageTargeting(x.targeting)))
      ==> x in SystemShard(modules, dims, cfg, env).value.shard
  {
    if SystemShard(modules, dims, cfg, env).Ok? {
      EveryModuleInEveryShard(modules, dims, cfg, env);
      var shards := UnfusedShards(modules, dims, cfg, env).value;
      assert shards[0] in shards;
    }
  }

  // ---------------------------------------------------------------------------
  // APEX

  /** APEX grouping succeeds exactly when one split lies outside the multi-ABI
      subset and it has the default targeting; the shards then pair it with each
      multi-ABI split in turn, in the order the multi-ABI splits are first
      encountered. With no candidate or several, `getOnlyElement`
      raises its defect. */
  lemma ApexGrouping(splits: seq<ModuleSplit>, cfg: SharderConfig, env: Collaborators)
    ensures GroupSplitsToShardsForApex(splits, cfg, env).Ok? <==>
      |ApexMasterCandidates(splits, cfg, env)| == 1
      && ApexMasterCandidates(splits, cfg, env)[0].targeting == DefaultTargeting
    ensures GroupSplitsToShardsForApex(splits, cfg, env).Ok? ==>
      var shards := GroupSplitsToShardsForApex(splits, cfg, env).value;
      var multiAbiSplits := SubsetWithTargeting(splits, HasMultiAbiTargeting, cfg, env);
      && |shards| == |multiAbiSplits|
      && (forall k :: 0 <= k < |shards| ==>
            shards[k] == [ApexMasterCandidates(splits, cfg, env)[0], multiAbiSplits[k]])
      && (forall k, k' :: 0 <= k < k' < |shards| ==> FirstSeenBefore(splits, shards[k][1], shards[k'][1]))
    ensures |ApexMasterCandidates(splits, cfg, env)| == 0 ==>
      GroupSplitsToShardsForApex(splits, cfg, env) == Err(Defect(NoSuchElement, NotExactlyOne(0)))
    ensures |ApexMasterCandidates(splits, cfg, env)| > 1 ==>
      GroupSplitsToShardsForApex(splits, cfg, env)
        == Err(Defect(IllegalArgument, NotExactlyOne(|ApexMasterCandidates(splits, cfg, env)|)))
    ensures (|ApexMasterCandidates(splits, cfg, env)| == 1
             && ApexMasterCandidates(splits, cfg, env)[0].targeting != DefaultTargeting) ==>
      GroupSplitsToShardsForApex(splits, cfg, env) == Err(Defect(IllegalState, MasterTargetingNotDefault))
  {
    SubsetInEncounterOrder(splits, HasMultiAbiTargeting, cfg, env);
  }

  /** APEX sharding runs split generation with no optimization dimension: only
      the APEX image pipeline splits anything. */
  lemma ApexUsesNoDimension(cfg: SharderConfig)
    ensures NativeLibrariesPipeline({}, cfg) == []
    ensures ResourcesPipeline({}, cfg) == []
    ensures AssetsPipeline({}, cfg) == []
    ensures ApexImagesPipeline() == [AbiApexImagesSplitter]
  {
  }
}
