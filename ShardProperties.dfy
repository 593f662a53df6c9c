/** What the sharder promises about its output: the size and layout of the shard
    list, which check fails in which way, APEX and system-app grouping, and how
    module splits reach every shard. */
module ShardProperties {
  import opened Sequences
  import opened Targeting
  import opened BundleSharder

  // ---------------------------------------------------------------------------
  // The cartesian product

  lemma {:induction false} ShardRowAt(
    masters: seq<ModuleSplit>, languages: seq<ModuleSplit>,
    abiGroup: seq<ModuleSplit>, densityGroups: seq<seq<ModuleSplit>>)
    ensures |ShardRow(masters, languages, abiGroup, densityGroups)| == |densityGroups|
    ensures forall j :: 0 <= j < |densityGroups| ==>
      ShardRow(masters, languages, abiGroup, densityGroups)[j]
        == Shard(masters, languages, abiGroup, densityGroups[j])
  {
    if densityGroups != [] {
      ShardRowAt(masters, languages, abiGroup, densityGroups[..|densityGroups| - 1]);
    }
  }

  lemma MulStep(i: nat, n: nat, d: nat)
    requires i < n
    ensures i * d + d <= n * d
  {
    assert n * d == (i + 1) * d + (n - i - 1) * d;
  }

  /** The product has |abiGroups| * |densityGroups| shards. */
  lemma {:induction false} CartesianShardsLength(
    masters: seq<ModuleSplit>, languages: seq<ModuleSplit>,
    abiGroups: seq<seq<ModuleSplit>>, densityGroups: seq<seq<ModuleSplit>>)
    ensures |CartesianShards(masters, languages, abiGroups, densityGroups)| == |abiGroups| * |densityGroups|
  {
    if abiGroups != [] {
      var n := |abiGroups| - 1;
      CartesianShardsLength(masters, languages, abiGroups[..n], densityGroups);
      ShardRowAt(masters, languages, abiGroups[n], densityGroups);
      assert (n + 1) * |densityGroups| == n * |densityGroups| + |densityGroups|;
    }
  }

  /** The shard for ABI group i and density group j sits at i * |densityGroups| + j. */
  lemma {:induction false} CartesianShardAt(
    masters: seq<ModuleSplit>, languages: seq<ModuleSplit>,
    abiGroups: seq<seq<ModuleSplit>>, densityGroups: seq<seq<ModuleSplit>>, i: nat, j: nat)
    requires i < |abiGroups| && j < |densityGroups|
    ensures i * |densityGroups| + j < |CartesianShards(masters, languages, abiGroups, densityGroups)|
    ensures CartesianShards(masters, languages, abiGroups, densityGroups)[i * |densityGroups| + j]
      == Shard(masters, languages, abiGroups[i], densityGroups[j])
  {
    var n := |abiGroups| - 1;
    var d := |densityGroups|;
    var init := CartesianShards(masters, languages, abiGroups[..n], densityGroups);
    var row := ShardRow(masters, languages, abiGroups[n], densityGroups);
    CartesianShardsLength(masters, languages, abiGroups[..n], densityGroups);
    ShardRowAt(masters, languages, abiGroups[n], densityGroups);
    assert CartesianShards(masters, languages, abiGroups, densityGroups) == init + row;
    if i < n {
      CartesianShardAt(masters, languages, abiGroups[..n], densityGroups, i, j);
      MulStep(i, n, d);
      assert abiGroups[..n][i] == abiGroups[i];
    } else {
      assert (init + row)[i * d + j] == row[j];
    }
  }

  /** Every index pair, at once. */
  lemma CartesianShardsAt(
    masters: seq<ModuleSplit>, languages: seq<ModuleSplit>,
    abiGroups: seq<seq<ModuleSplit>>, densityGroups: seq<seq<ModuleSplit>>)
    ensures |CartesianShards(masters, languages, abiGroups, densityGroups)| == |abiGroups| * |densityGroups|
    ensures forall i, j :: 0 <= i < |abiGroups| && 0 <= j < |densityGroups| ==>
      && i * |densityGroups| + j < |CartesianShards(masters, languages, abiGroups, densityGroups)|
      && CartesianShards(masters, languages, abiGroups, densityGroups)[i * |densityGroups| + j]
         == Shard(masters, languages, abiGroups[i], densityGroups[j])
  {
    CartesianShardsLength(masters, languages, abiGroups, densityGroups);
    forall i, j | 0 <= i < |abiGroups| && 0 <= j < |densityGroups|
      ensures i * |densityGroups| + j < |CartesianShards(masters, languages, abiGroups, densityGroups)|
      ensures CartesianShards(masters, languages, abiGroups, densityGroups)[i * |densityGroups| + j]
        == Shard(masters, languages, abiGroups[i], densityGroups[j])
    {
      CartesianShardAt(masters, languages, abiGroups, densityGroups, i, j);
    }
  }

  // ---------------------------------------------------------------------------
  // Universes and overlap

  /** Some split carries both ABI and density targeting and is admitted by the
      device spec, if any. */
  ghost predicate AbiAndDensityTargeted(splits: seq<ModuleSplit>, cfg: SharderConfig, env: Collaborators) {
    exists x :: x in splits && HasAbiTargeting(x.targeting) && HasScreenDensityTargeting(x.targeting)
      && DeviceAdmits(x, cfg, env)
  }

  ghost predicate MastersWellFormed(splits: seq<ModuleSplit>) {
    && (exists x :: x in splits && x.isMasterSplit)
    && (forall x :: x in splits && x.isMasterSplit ==> x.targeting == DefaultTargeting)
  }

  // ---------------------------------------------------------------------------
  // Which check fails in which way

  /** The checks of `groupSplitsToShards` in order: master splits, ABI/density
      overlap and density universe are defects (`checkState`); they all come
      before the ABI universe check. */
  lemma GroupingDefects(splits: seq<ModuleSplit>, cfg: SharderConfig, env: Collaborators)
    ensures (forall x :: x in splits ==> !x.isMasterSplit)
      ==> Grouping(splits, cfg, env) == Err(Defect(IllegalState, NoMasterSplit))
    ensures (exists x :: x in splits && x.isMasterSplit) && !MastersWellFormed(splits)
      ==> Grouping(splits, cfg, env) == Err(Defect(IllegalState, MasterTargetingNotDefault))
    ensures MastersWellFormed(splits) && AbiAndDensityTargeted(splits, cfg, env)
      ==> Grouping(splits, cfg, env) == Err(Defect(IllegalState, AbiAndDensityOverlap))
    ensures MastersWellFormed(splits) && !AbiAndDensityTargeted(splits, cfg, env)
      && !UniversesAgree(DensitySplits(splits, cfg, env), env.densityUniverse)
      ==> Grouping(splits, cfg, env) == Err(Defect(IllegalState, DensityUniverseMismatch))
  {
    var abi := AbiSplits(splits, cfg, env);
    var density := DensitySplits(splits, cfg, env);
    if AbiAndDensityTargeted(splits, cfg, env) {
      var x :| x in splits && HasAbiTargeting(x.targeting) && HasScreenDensityTargeting(x.targeting)
        && DeviceAdmits(x, cfg, env);
      assert x in abi && x in density;
    }
  }

  /** The user-facing error is raised exactly when the earlier checks pass and two
      ABI splits have different non-empty ABI universes. */
  lemma GroupingUserErrorIff(splits: seq<ModuleSplit>, cfg: SharderConfig, env: Collaborators)
    ensures Grouping(splits, cfg, env) == Err(CommandExecution(AbiUniverseMismatch))
      <==> (MastersWellFormed(splits) && !AbiAndDensityTargeted(splits, cfg, env)
            && UniversesAgree(DensitySplits(splits, cfg, env), env.densityUniverse)
            && !UniversesAgree(AbiSplits(splits, cfg, env), env.abiUniverse))
  {
    GroupingDefects(splits, cfg, env);
    NoOverlapIff(splits, cfg, env);
  }

  lemma NoOverlapIff(splits: seq<ModuleSplit>, cfg: SharderConfig, env: Collaborators)
    ensures Disjoint(AbiSplits(splits, cfg, env), DensitySplits(splits, cfg, env))
      <==> !AbiAndDensityTargeted(splits, cfg, env)
  {
    if AbiAndDensityTargeted(splits, cfg, env) {
      var x :| x in splits && HasAbiTargeting(x.targeting) && HasScreenDensityTargeting(x.targeting)
        && DeviceAdmits(x, cfg, env);
      assert x in AbiSplits(splits, cfg, env) && x in DensitySplits(splits, cfg, env);
    }
  }

  /** Grouping succeeds exactly when all four checks pass. */
  lemma GroupingSucceedsIff(splits: seq<ModuleSplit>, cfg: SharderConfig, env: Collaborators)
    ensures Grouping(splits, cfg, env).Ok?
      <==> (MastersWellFormed(splits) && !AbiAndDensityTargeted(splits, cfg, env)
            && UniversesAgree(DensitySplits(splits, cfg, env), env.densityUniverse)
            && UniversesAgree(AbiSplits(splits, cfg, env), env.abiUniverse))
  {
    NoOverlapIff(splits, cfg, env);
  }

  // ---------------------------------------------------------------------------
  // Shape of a successful grouping

  function Max1(n: nat): nat { if n == 0 then 1 else n }

  /** A successful grouping is the product of the master and language splits
      with the ABI groups and the density groups. */
  lemma GroupingValue(splits: seq<ModuleSplit>, cfg: SharderConfig, env: Collaborators)
    requires Grouping(splits, cfg, env).Ok?
    ensures GetMasterSplits(splits).Ok?
    ensures Grouping(splits, cfg, env).value
      == CartesianShards(GetMasterSplits(splits).value, GetLanguageSplits(splits),
                         AbiGroups(splits, cfg, env), DensityGroups(splits, cfg, env))
  {
  }

  /** There are max(1, #distinct ABI targetings) ABI groups and likewise for density. */
  lemma GroupCounts(splits: seq<ModuleSplit>, cfg: SharderConfig, env: Collaborators)
    ensures |AbiGroups(splits, cfg, env)| == Max1(|PartitionKeys(AbiSplits(splits, cfg, env))|)
    ensures |DensityGroups(splits, cfg, env)| == Max1(|PartitionKeys(DensitySplits(splits, cfg, env))|)
  {
  }

  /** On success there are max(1, #distinct ABI targetings) * max(1, #distinct
      density targetings) shards. */
  lemma GroupingShardCount(splits: seq<ModuleSplit>, cfg: SharderConfig, env: Collaborators)
    requires Grouping(splits, cfg, env).Ok?
    ensures |Grouping(splits, cfg, env).value|
      == Max1(|PartitionKeys(AbiSplits(splits, cfg, env))|) * Max1(|PartitionKeys(DensitySplits(splits, cfg, env))|)
  {
    GroupingValue(splits, cfg, env);
    GroupCounts(splits, cfg, env);
    CartesianShardsLength(GetMasterSplits(splits).value, GetLanguageSplits(splits),
                          AbiGroups(splits, cfg, env), DensityGroups(splits, cfg, env));
  }

  /** The groups of `partitionByTargeting` come in the order in which their
      targeting is first encountered among the splits. */
  lemma PartitionInEncounterOrder(splits: seq<ModuleSplit>)
    ensures forall k, k' :: 0 <= k < k' < |PartitionByTargeting(splits)| ==>
      FirstSeenBefore(MapSeq(splits, TargetingOf), PartitionKeys(splits)[k], PartitionKeys(splits)[k'])
  {
    DistinctKeepsFirstSeenOrder(MapSeq(splits, TargetingOf));
  }

  // ---------------------------------------------------------------------------
  // Encounter order

  /** `subsetWithTargeting` collects into an `ImmutableSet`, which iterates in
      first-encounter order: of two members, the earlier one is first seen in
      the input before the later one. */
  lemma SubsetInEncounterOrder(
    splits: seq<ModuleSplit>, hasTargeting: ApkTargeting -> bool, cfg: SharderConfig, env: Collaborators)
    ensures var subset := SubsetWithTargeting(splits, hasTargeting, cfg, env);
      forall i, j :: 0 <= i < j < |subset| ==> FirstSeenBefore(splits, subset[i], subset[j])
  {
    DistinctFilterFirstSeen(splits, SubsetFilter(hasTargeting, cfg, env));
  }

  /** The master splits are in first-encounter order. */
  lemma MastersInEncounterOrder(splits: seq<ModuleSplit>)
    ensures GetMasterSplits(splits).Ok? ==>
      forall i, j :: 0 <= i < j < |GetMasterSplits(splits).value| ==>
        FirstSeenBefore(splits, GetMasterSplits(splits).value[i], GetMasterSplits(splits).value[j])
  {
    DistinctFilterFirstSeen(splits, IsMaster);
  }

  /** The language splits are in first-encounter order. */
  lemma LanguagesInEncounterOrder(splits: seq<ModuleSplit>)
    ensures forall i, j :: 0 <= i < j < |GetLanguageSplits(splits)| ==>
      FirstSeenBefore(splits, GetLanguageSplits(splits)[i], GetLanguageSplits(splits)[j])
  {
    DistinctFilterFirstSeen(splits, IsLanguageSplit);
  }

  /** Each group of `partitionByTargeting` keeps the input order of its splits,
      and holds no split twice when the input does not. */
  lemma GroupsKeepInputOrder(splits: seq<ModuleSplit>)
    ensures forall k, i, j ::
      0 <= k < |PartitionByTargeting(splits)| && 0 <= i < j < |PartitionByTargeting(splits)[k]|
      ==> Precedes(splits, PartitionByTargeting(splits)[k][i], PartitionByTargeting(splits)[k][j])
    ensures NoDuplicates(splits) ==>
      forall k :: 0 <= k < |PartitionByTargeting(splits)| ==> NoDuplicates(PartitionByTargeting(splits)[k])
  {
    var keys := PartitionKeys(splits);
    forall k | 0 <= k < |keys|
      ensures PartitionByTargeting(splits)[k] == GroupWithKey(splits, keys[k])
      ensures forall i, j :: 0 <= i < j < |GroupWithKey(splits, keys[k])| ==>
        Precedes(splits, GroupWithKey(splits, keys[k])[i], GroupWithKey(splits, keys[k])[j])
    {
      FilterKeepsOrder(splits, TargetedBy(keys[k]));
    }
  }

  /** The first split of a group is the earliest split with its key. */
  lemma FirstWithKey(splits: seq<ModuleSplit>, key: ApkTargeting) returns (a: nat)
    requires GroupWithKey(splits, key) != []
    ensures a < |splits| && splits[a] == GroupWithKey(splits, key)[0] && splits[a].targeting == key
    ensures forall c :: 0 <= c < a ==> splits[c].targeting != key
  {
    FilterFirstIsEarliest(splits, TargetedBy(key));
    a :|
      && 0 <= a < |splits| && splits[a] == GroupWithKey(splits, key)[0]
      && TargetedBy(key)(splits[a])
      && forall c :: 0 <= c < a ==> !TargetedBy(key)(splits[c]);
  }

  /** The first split of an earlier group occurs in the input before the first
      split of a later group. */
  lemma GroupHeadsPrecede(splits: seq<ModuleSplit>, k: nat, k': nat)
    requires k < k' < |PartitionByTargeting(splits)|
    ensures Precedes(splits, PartitionByTargeting(splits)[k][0], PartitionByTargeting(splits)[k'][0])
  {
    var keys := PartitionKeys(splits);
    var ts := MapSeq(splits, TargetingOf);
    assert PartitionByTargeting(splits)[k] == GroupWithKey(splits, keys[k]);
    assert PartitionByTargeting(splits)[k'] == GroupWithKey(splits, keys[k']);
    PartitionInEncounterOrder(splits);
    var c :| 0 <= c < |ts| && ts[c] == keys[k] && keys[k'] !in ts[..c + 1];
    var a := FirstWithKey(splits, keys[k]);
    var b := FirstWithKey(splits, keys[k']);
    assert a <= c by {
      assert splits[c].targeting == keys[k];
    }
    assert c < b by {
      assert forall i :: 0 <= i <= c ==> ts[..c + 1][i] == splits[i].targeting;
    }
  }

  /** The groups built from a subset are in first-encounter order with respect to
      the input, and so are the splits within each group, which are distinct. */
  lemma GroupsInEncounterOrder(
    splits: seq<ModuleSplit>, hasTargeting: ApkTargeting -> bool, cfg: SharderConfig, env: Collaborators)
    ensures var groups := PartitionByTargeting(SubsetWithTargeting(splits, hasTargeting, cfg, env));
      && (forall k :: 0 <= k < |groups| ==> NoDuplicates(groups[k]))
      && (forall k, i, j :: 0 <= k < |groups| && 0 <= i < j < |groups[k]| ==>
            FirstSeenBefore(splits, groups[k][i], groups[k][j]))
      && (forall k, k' :: 0 <= k < k' < |groups| ==> FirstSeenBefore(splits, groups[k][0], groups[k'][0]))
  {
    var subset := SubsetWithTargeting(splits, hasTargeting, cfg, env);
    var groups := PartitionByTargeting(subset);
    SubsetInEncounterOrder(splits, hasTargeting, cfg, env);
    GroupsKeepInputOrder(subset);
    forall x, y | Precedes(subset, x, y) ensures FirstSeenBefore(splits, x, y) {
      var a, b :| 0 <= a < b < |subset| && subset[a] == x && subset[b] == y;
    }
    forall k, k' | 0 <= k < k' < |groups| ensures FirstSeenBefore(splits, groups[k][0], groups[k'][0]) {
      GroupHeadsPrecede(subset, k, k');
    }
  }

  /** The key a group of the product stands for: its common targeting, or none
      for the empty group substituted for an empty partition. */
  function GroupKey(group: seq<ModuleSplit>): Option<ApkTargeting> {
    if group == [] then None else Some(group[0].targeting)
  }

  /** Within an ABI (density) group every split is an ABI (density) split and all
      share one targeting; different groups have different targetings. */
  lemma {:induction false} GroupsAreByTargeting(
    subset: seq<ModuleSplit>, hasTargeting: ApkTargeting -> bool, splits: seq<ModuleSplit>,
    cfg: SharderConfig, env: Collaborators)
    requires subset == SubsetWithTargeting(splits, hasTargeting, cfg, env)
    ensures var groups := NonEmpty(PartitionByTargeting(subset));
      && (forall k, x :: 0 <= k < |groups| && x in groups[k] ==>
            x in splits && hasTargeting(x.targeting) && DeviceAdmits(x, cfg, env)
            && Some(x.targeting) == GroupKey(groups[k]))
      && (forall k, k' :: 0 <= k < k' < |groups| ==> GroupKey(groups[k]) != GroupKey(groups[k']))
  {
    var partition := PartitionByTargeting(subset);
    var keys := PartitionKeys(subset);
    if partition != [] {
      forall k | 0 <= k < |partition| ensures GroupKey(partition[k]) == Some(keys[k]) {
        assert partition[k][0] in partition[k];
      }
    }
  }

  /** No two shards stand for the same (ABI group, density group) pair. */
  lemma ShardKeysDistinct(splits: seq<ModuleSplit>, cfg: SharderConfig, env: Collaborators)
    ensures var abiGroups := AbiGroups(splits, cfg, env);
      var densityGroups := DensityGroups(splits, cfg, env);
      forall i, j, i', j' ::
        0 <= i < |abiGroups| && 0 <= j < |densityGroups| &&
        0 <= i' < |abiGroups| && 0 <= j' < |densityGroups| && (i, j) != (i', j')
        ==> (GroupKey(abiGroups[i]), GroupKey(densityGroups[j]))
            != (GroupKey(abiGroups[i']), GroupKey(densityGroups[j']))
  {
    GroupsAreByTargeting(AbiSplits(splits, cfg, env), HasAbiTargeting, splits, cfg, env);
    GroupsAreByTargeting(DensitySplits(splits, cfg, env), HasScreenDensityTargeting, splits, cfg, env);
    var abiGroups := AbiGroups(splits, cfg, env);
    var densityGroups := DensityGroups(splits, cfg, env);
    forall i, j, i', j' |
      0 <= i < |abiGroups| && 0 <= j < |densityGroups| &&
      0 <= i' < |abiGroups| && 0 <= j' < |densityGroups| && (i, j) != (i', j')
      ensures (GroupKey(abiGroups[i]), GroupKey(densityGroups[j]))
              != (GroupKey(abiGroups[i']), GroupKey(densityGroups[j']))
    {
      if i != i' {
        if i < i' { assert GroupKey(abiGroups[i]) != GroupKey(abiGroups[i']); }
        else { assert GroupKey(abiGroups[i']) != GroupKey(abiGroups[i]); }
      } else {
        if j < j' { assert GroupKey(densityGroups[j]) != GroupKey(densityGroups[j']); }
        else { assert GroupKey(densityGroups[j']) != GroupKey(densityGroups[j]); }
      }
    }
  }

  /** Every shard of the product holds every master and every language split. */
  lemma {:induction false} ShardsHoldMastersAndLanguages(
    masters: seq<ModuleSplit>, languages: seq<ModuleSplit>,
    abiGroups: seq<seq<ModuleSplit>>, densityGroups: seq<seq<ModuleSplit>>)
    ensures forall shard, x ::
      (shard in CartesianShards(masters, languages, abiGroups, densityGroups) && (x in masters || x in languages))
      ==> x in shard
  {
    if abiGroups != [] {
      var n := |abiGroups| - 1;
      ShardsHoldMastersAndLanguages(masters, languages, abiGroups[..n], densityGroups);
      ShardRowAt(masters, languages, abiGroups[n], densityGroups);
      var row := ShardRow(masters, languages, abiGroups[n], densityGroups);
      forall shard, x | shard in row && (x in masters || x in languages) ensures x in shard {
        var j :| 0 <= j < |row| && row[j] == shard;
      }
    }
  }

  /** Every member of an ABI group is in some shard, and so is every member of a
      density group, provided the other dimension has a group. */
  lemma GroupMembersInSomeShard(
    masters: seq<ModuleSplit>, languages: seq<ModuleSplit>,
    abiGroups: seq<seq<ModuleSplit>>, densityGroups: seq<seq<ModuleSplit>>)
    ensures densityGroups != [] ==>
      (forall i, x :: (0 <= i < |abiGroups| && x in abiGroups[i]) ==>
        exists shard :: shard in CartesianShards(masters, languages, abiGroups, densityGroups) && x in shard)
    ensures abiGroups != [] ==>
      (forall j, x :: (0 <= j < |densityGroups| && x in densityGroups[j]) ==>
        exists shard :: shard in CartesianShards(masters, languages, abiGroups, densityGroups) && x in shard)
  {
    var shards := CartesianShards(masters, languages, abiGroups, densityGroups);
    if densityGroups != [] {
      forall i, x | 0 <= i < |abiGroups| && x in abiGroups[i]
        ensures exists shard :: shard in shards && x in shard
      {
        CartesianShardAt(masters, languages, abiGroups, densityGroups, i, 0);
        var shard := shards[i * |densityGroups|];
        assert x in shard;
      }
    }
    if abiGroups != [] {
      forall j, x | 0 <= j < |densityGroups| && x in densityGroups[j]
        ensures exists shard :: shard in shards && x in shard
      {
        CartesianShardAt(masters, languages, abiGroups, densityGroups, 0, j);
        var shard := shards[j];
        assert x in shard;
      }
    }
  }

  /** On success every master split and every language split of the input is in
      every shard, and every ABI and density split that the device spec admits
      is in some shard. */
  lemma GroupingCoversSplits(splits: seq<ModuleSplit>, cfg: SharderConfig, env: Collaborators)
    requires Grouping(splits, cfg, env).Ok?
    ensures forall shard, x ::
      (shard in Grouping(splits, cfg, env).value && x in splits
       && (x.isMasterSplit || HasLanguageTargeting(x.targeting)))
      ==> x in shard
    ensures forall x ::
      (x in splits && DeviceAdmits(x, cfg, env)
       && (HasAbiTargeting(x.targeting) || HasScreenDensityTargeting(x.targeting)))
      ==> exists shard :: shard in Grouping(splits, cfg, env).value && x in shard
  {
    GroupingValue(splits, cfg, env);
    var shards := Grouping(splits, cfg, env).value;
    var masters := GetMasterSplits(splits).value;
    var languages := GetLanguageSplits(splits);
    var abiGroups := AbiGroups(splits, cfg, env);
    var densityGroups := DensityGroups(splits, cfg, env);
    assert shards == CartesianShards(masters, languages, abiGroups, densityGroups);
    ShardsHoldMastersAndLanguages(masters, languages, abiGroups, densityGroups);
    GroupMembersInSomeShard(masters, languages, abiGroups, densityGroups);
    var abiSplits := AbiSplits(splits, cfg, env);
    var densitySplits := DensitySplits(splits, cfg, env);
    forall x | x in splits && DeviceAdmits(x, cfg, env)
      && (HasAbiTargeting(x.targeting) || HasScreenDensityTargeting(x.targeting))
      ensures exists shard :: shard in shards && x in shard
    {
      if HasAbiTargeting(x.targeting) {
        assert x in abiSplits;
        var k :| 0 <= k < |PartitionByTargeting(abiSplits)| && x in PartitionByTargeting(abiSplits)[k];
        assert x in abiGroups[k];
      } else {
        assert x in densitySplits;
        var k :| 0 <= k < |PartitionByTargeting(densitySplits)| && x in PartitionByTargeting(densitySplits)[k];
        assert x in densityGroups[k];
      }
    }
  }

  /** A product of one empty ABI group and one empty density group is the single
      shard of the master splits followed by the language splits. */
  lemma SingleShard(masters: seq<ModuleSplit>, languages: seq<ModuleSplit>)
    ensures CartesianShards(masters, languages, [[]], [[]]) == [masters + languages]
  {
    var none: seq<seq<ModuleSplit>> := [];
    assert [[]][..0] == none;
    assert Shard(masters, languages, [], []) == masters + languages;
    assert ShardRow(masters, languages, [], [[]]) == [masters + languages];
  }

  /** When no split the device spec admits targets an ABI or a screen density,
      and the master splits are well formed, there is exactly one shard: every
      master split, then every language split. */
  lemma NoAbiOrDensityGivesOneShard(splits: seq<ModuleSplit>, cfg: SharderConfig, env: Collaborators)
    requires MastersWellFormed(splits)
    requires forall x :: x in splits && DeviceAdmits(x, cfg, env) ==>
      !HasAbiTargeting(x.targeting) && !HasScreenDensityTargeting(x.targeting)
    ensures GetMasterSplits(splits).Ok?
    ensures Grouping(splits, cfg, env) == Ok([GetMasterSplits(splits).value + GetLanguageSplits(splits)])
  {
    NoMemberEmpty(AbiSplits(splits, cfg, env));
    NoMemberEmpty(DensitySplits(splits, cfg, env));
    assert PartitionKeys([]) == [];
    assert AbiGroups(splits, cfg, env) == [[]];
    assert DensityGroups(splits, cfg, env) == [[]];
    SingleShard(GetMasterSplits(splits).value, GetLanguageSplits(splits));
  }

  /** With only default-targeted master splits there is exactly one shard: the
      distinct master splits. */
  lemma OnlyMastersGiveOneShard(splits: seq<ModuleSplit>, cfg: SharderConfig, env: Collaborators)
    requires splits != []
    requires forall x :: x in splits ==> x.isMasterSplit && x.targeting == DefaultTargeting
    ensures Grouping(splits, cfg, env) == Ok([Distinct(splits)])
  {
    assert splits[0] in splits;
    NoAbiOrDensityGivesOneShard(splits, cfg, env);
    NoMemberEmpty(GetLanguageSplits(splits));
    FilterAll(splits, IsMaster);
    assert GetMasterSplits(splits).value + GetLanguageSplits(splits) == Distinct(splits);
  }

  lemma NoMemberEmpty<T>(s: seq<T>)
    ensures (forall x :: x !in s) ==> s == []
  {
    if s != [] { assert s[0] in s; }
  }

  lemma {:induction false} FilterAll<T(!new)>(s: seq<T>, p: T -> bool)
    requires forall x :: x in s ==> p(x)
    ensures Filter(s, p) == s
  {
    if s != [] {
      assert forall x :: x in s[1..] ==> x in s;
      FilterAll(s[1..], p);
      assert s == [s[0]] + s[1..];
    }
  }
}
