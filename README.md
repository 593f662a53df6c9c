# BundleSharder, modelled in Dafny

This project models the shard-grouping core of bundletool's `BundleSharder`. The
sharder builds standalone APKs from an Android App Bundle. It takes the module
splits of every module, each tagged with an `ApkTargeting`, and turns them into
*unfused shards*. An unfused shard is a list of splits that the merger later
fuses into one standalone APK.

- `groupSplitsToShards`:
  - splits the input into master, language, ABI and screen-density subsets;
  - checks that the ABI and density subsets do not overlap;
  - checks that the density splits share one density universe;
  - checks that the ABI splits share one ABI universe;
  - partitions the ABI and the density subsets by exact targeting;
  - emits one shard per (ABI group, density group) pair. Each shard is all
    master splits, all language splits, the ABI group and the density group.
- `groupSplitsToShardsForApex` pairs the one default-targeted master split of an
  APEX module with each of its multi-ABI splits.
- The entry points guard these steps:
  - `shardBundle` refuses a device spec.
  - `shardForSystemApps` requires one and takes the only unfused shard.
  - `generateUnfusedShards` refuses an empty module list.
  - `generateSplits` requires exactly one master split per module.

Layout:

- `Sequences.dfy` models the Java collection idioms the sharder relies on:
  - stream filtering and mapping;
  - `ImmutableSet`, as a duplicate-free sequence in first-insertion order (`Distinct`);
  - `filter(..).count() == 1`.
- `Targeting.dfy` holds the values: targeting descriptors, `ModuleSplit`,
  `BundleModule` and `DeviceSpec`.
- `Sharding.dfy` (module `BundleSharder`) holds the model itself.
  - The pure helpers are functions.
  - The code that fills a builder or a stream step by step is a method, proved
    equal to a specification function:
    - `generateSplits`, whose six sequential appends to the `rawSplits`
      builder become six updates of a local sequence (there is no loop);
    - the nested loops of `groupSplitsToShards` (the `shards` builder), which
      stay loops;
    - the `flatMap` of `generateUnfusedShards`, a loop over the modules.
  - The entry points are methods as well.
- `ShardProperties.dfy` proves what grouping promises:
  - which check fails in which way;
  - the size and order of the product;
  - the first-encounter order of every subset, group and APEX shard;
  - group keys;
  - coverage of the input splits.
- `EntryPointProperties.dfy` proves the entry-point guarantees.

The sharder's configuration is a parameter (`SharderConfig`). The library code
whose source is not part of this model is a `Collaborators` value of functions
that the lemmas quantify over. That library code is:

- the ABI and density universes;
- the device matcher;
- the `ModuleSplit.forX` constructors;
- running a splitting pipeline;
- `SameTargetingMerger.merge`;
- `ModuleSplit.removeSplitName`.

Errors are values. `CommandExecution` is the user-facing
`CommandExecutionException`. `Defect(exception, reason)` is an exception from
`checkState` (`IllegalState`), from `checkArgument` (`IllegalArgument`), or from
`Iterables.getOnlyElement` (`NoSuchElement` when empty, `IllegalArgument` when
there are several).

## Model

| member | source | states |
|---|---|---|
| Sequences.Distinct | src/main/java/com/android/tools/build/bundletool/splitters/BundleSharder.java:323-334 | `toImmutableSet`: same members as the input, no duplicates, no longer than the input |
| Sequences.DistinctKeepsFirstSeenOrder | src/main/java/com/android/tools/build/bundletool/splitters/BundleSharder.java:359-362 | an `ImmutableSet` iterates in first-encounter order: of any two members, the earlier one was seen first in the input |
| Sequences.DistinctAtMostOne | src/main/java/com/android/tools/build/bundletool/splitters/BundleSharder.java:368-378 | `distinct().count() <= 1` holds exactly when all elements are equal |
| Sequences.FilterCountOne | src/main/java/com/android/tools/build/bundletool/splitters/BundleSharder.java:183-185 | `filter(p).count() == 1` holds exactly when one position satisfies `p` |
| BundleSharder.NativeLibrariesPipeline | src/main/java/com/android/tools/build/bundletool/splitters/BundleSharder.java:190-197 | the native-library pipeline is non-empty exactly when ABI is a sharding dimension; its only splitter carries the 64-bit-shard flag |
| BundleSharder.ResourcesPipeline | src/main/java/com/android/tools/build/bundletool/splitters/BundleSharder.java:199-217 | the density splitter is present exactly with the density dimension, and comes first; the language splitter is present exactly with the language dimension and language splitting enabled |
| BundleSharder.AssetsPipeline | src/main/java/com/android/tools/build/bundletool/splitters/BundleSharder.java:219-227 | the assets pipeline holds the language assets splitter exactly when language splitting is enabled |
| BundleSharder.GenerateSplits | src/main/java/com/android/tools/build/bundletool/splitters/BundleSharder.java:152-188 | the six builder appends, the merge and the split-name removal yield `ModuleSplitsOf`; on success exactly one merged split is a master; otherwise a `checkState` defect with a master count other than 1 |
| Sequences.Filter | src/main/java/com/android/tools/build/bundletool/splitters/BundleSharder.java:323-334 | `stream().filter(p)`: exactly the elements satisfying `p`, no more of them than the input, duplicate-free when the input is |
| Sequences.FilterKeepsOrder | src/main/java/com/android/tools/build/bundletool/splitters/BundleSharder.java:323-334 | `filter` keeps the input order: of any two kept elements, the earlier occurs in the input before the later |
| Sequences.FilterFirstIsEarliest | src/main/java/com/android/tools/build/bundletool/splitters/BundleSharder.java:359-362 | the first kept element is the earliest element of the input satisfying `p` |
| Sequences.FilterKeepsFirstSeen | src/main/java/com/android/tools/build/bundletool/splitters/BundleSharder.java:323-334 | first-encounter order among the kept elements is first-encounter order in the input |
| Sequences.DistinctFilterFirstSeen | src/main/java/com/android/tools/build/bundletool/splitters/BundleSharder.java:323-334 | `filter(..).collect(toImmutableSet())` lists its members in first-encounter order of the input |
| Sequences.MapSeq | src/main/java/com/android/tools/build/bundletool/splitters/BundleSharder.java:180-181 | `stream().map(f)`: same length, element i is `f` of input element i |
| BundleSharder.SubsetWithTargeting | src/main/java/com/android/tools/build/bundletool/splitters/BundleSharder.java:323-334 | a duplicate-free set holding exactly the splits that satisfy the predicate and that the device spec, when present, admits; its order is stated by `SubsetInEncounterOrder` |
| BundleSharder.GetMasterSplits | src/main/java/com/android/tools/build/bundletool/splitters/BundleSharder.java:337-351 | succeeds exactly when some split is a master and all masters have default targeting; then yields exactly the master splits, without device filtering; otherwise the `NoMasterSplit` or `MasterTargetingNotDefault` defect |
| BundleSharder.GetLanguageSplits | src/main/java/com/android/tools/build/bundletool/splitters/BundleSharder.java:353-357 | exactly the language-targeted splits, duplicate-free, without device filtering |
| BundleSharder.KeyOfSplit | src/main/java/com/android/tools/build/bundletool/splitters/BundleSharder.java:359-362 | a targeting is a multimap key exactly when some split carries it |
| BundleSharder.PartitionByTargeting | src/main/java/com/android/tools/build/bundletool/splitters/BundleSharder.java:359-362 | one non-empty group per distinct targeting; group k holds exactly the splits with the k-th key; every split is in some group |
| BundleSharder.NonEmpty | src/main/java/com/android/tools/build/bundletool/splitters/BundleSharder.java:364-366 | never empty; unchanged when non-empty; otherwise only the empty group |
| BundleSharder.DistinctUniversesIff | src/main/java/com/android/tools/build/bundletool/splitters/BundleSharder.java:368-378 | at most one distinct non-empty universe exactly when any two splits with non-empty universes have the same universe |
| BundleSharder.SameTargetedUniverse | src/main/java/com/android/tools/build/bundletool/splitters/BundleSharder.java:368-378 | `sameTargetedUniverse` holds exactly when all non-empty universes agree; splits with an empty universe are ignored |
| BundleSharder.Disjoint | src/main/java/com/android/tools/build/bundletool/splitters/BundleSharder.java:254-256 | `Sets.intersection(..).isEmpty()`: the sets of members of the two subsets have an empty intersection |
| BundleSharder.Grouping | src/main/java/com/android/tools/build/bundletool/splitters/BundleSharder.java:234-305 | a failed master check is passed through first; success implies the subsets are disjoint and both universes agree; every error other than the ABI-universe `CommandExecutionException` is a defect |
| BundleSharder.NonEmptyUniverses | src/main/java/com/android/tools/build/bundletool/splitters/BundleSharder.java:368-376 | holds exactly the non-empty universes of the splits |
| BundleSharder.GroupSplitsToShards | src/main/java/com/android/tools/build/bundletool/splitters/BundleSharder.java:234-305 | the checks followed by the nested loops yield `Grouping` |
| BundleSharder.FillShards | src/main/java/com/android/tools/build/bundletool/splitters/BundleSharder.java:290-302 | the nested loops over ABI groups and density groups build the cartesian product, ABI groups outermost |
| BundleSharder.OnlyElement | src/main/java/com/android/tools/build/bundletool/splitters/BundleSharder.java:313 | `getOnlyElement`: succeeds exactly on a one-element collection; `NoSuchElement` on none, `IllegalArgument` on several |
| BundleSharder.GroupSplitsToShardsForApex | src/main/java/com/android/tools/build/bundletool/splitters/BundleSharder.java:307-321 | on success one shard per multi-ABI split, each of two splits: a default-targeted split of the input, then a multi-ABI split the device spec admits |
| BundleSharder.ApexMasterCandidates | src/main/java/com/android/tools/build/bundletool/splitters/BundleSharder.java:309-312 | the set difference: exactly the splits that are not in the multi-ABI subset, duplicate-free |
| BundleSharder.GenerateUnfusedShards | src/main/java/com/android/tools/build/bundletool/splitters/BundleSharder.java:127-140 | the empty-modules check, the flattening and grouping yield `UnfusedShards` |
| BundleSharder.CollectSplits | src/main/java/com/android/tools/build/bundletool/splitters/BundleSharder.java:131-135 | the flatMap over modules yields `FlatSplits` and stops at the first failing module |
| BundleSharder.FlatSplitsKeepsError | src/main/java/com/android/tools/build/bundletool/splitters/BundleSharder.java:131-135 | once a prefix of the modules fails, the whole flattening fails with that error |
| BundleSharder.ShardBundle | src/main/java/com/android/tools/build/bundletool/splitters/BundleSharder.java:95-103 | the device-spec check then the unfused shards yield `BundleShards` |
| BundleSharder.FusingModuleNames | src/main/java/com/android/tools/build/bundletool/splitters/BundleSharder.java:119-122 | a duplicate-free set of exactly the names of modules included in fusing |
| BundleSharder.ShardForSystemApps | src/main/java/com/android/tools/build/bundletool/splitters/BundleSharder.java:110-125 | the device-spec check, the unfused shards and `getOnlyElement` yield `SystemShard` |
| BundleSharder.ShardApexBundle | src/main/java/com/android/tools/build/bundletool/splitters/BundleSharder.java:146-150 | splits generated with no dimension then APEX grouping yield `ApexShards` |
| ShardProperties.ShardRowAt | src/main/java/com/android/tools/build/bundletool/splitters/BundleSharder.java:292-301 | the inner loop adds one shard per density group, in order, each masters + languages + ABI group + that density group |
| ShardProperties.CartesianShardsLength | src/main/java/com/android/tools/build/bundletool/splitters/BundleSharder.java:290-302 | the product has \|ABI groups\| * \|density groups\| shards |
| ShardProperties.CartesianShardAt | src/main/java/com/android/tools/build/bundletool/splitters/BundleSharder.java:290-302 | the shard for ABI group i and density group j sits at i * \|density groups\| + j and is masters + languages + ABI group i + density group j |
| ShardProperties.CartesianShardsAt | src/main/java/com/android/tools/build/bundletool/splitters/BundleSharder.java:290-302 | the layout of every shard of the product at once |
| ShardProperties.GroupingDefects | src/main/java/com/android/tools/build/bundletool/splitters/BundleSharder.java:246-260 | no master, a non-default master, an ABI/density overlap and a density-universe mismatch are `checkState` defects, each raised only when the earlier checks pass |
| ShardProperties.GroupingUserErrorIff | src/main/java/com/android/tools/build/bundletool/splitters/BundleSharder.java:252-266 | the user-facing error is raised exactly when the earlier checks pass and two ABI splits have different non-empty ABI universes |
| ShardProperties.NoOverlapIff | src/main/java/com/android/tools/build/bundletool/splitters/BundleSharder.java:254-256 | the subsets overlap exactly when some admitted split has both ABI and density targeting |
| ShardProperties.GroupingSucceedsIff | src/main/java/com/android/tools/build/bundletool/splitters/BundleSharder.java:246-266 | grouping succeeds exactly when all four checks pass |
| ShardProperties.GroupingValue | src/main/java/com/android/tools/build/bundletool/splitters/BundleSharder.java:282-302 | a successful grouping is the product of the non-empty partitions of the ABI and density subsets, with the master and language splits |
| ShardProperties.GroupCounts | src/main/java/com/android/tools/build/bundletool/splitters/BundleSharder.java:282-285 | there are max(1, #distinct ABI targetings) ABI groups and max(1, #distinct density targetings) density groups |
| ShardProperties.GroupingShardCount | src/main/java/com/android/tools/build/bundletool/splitters/BundleSharder.java:282-302 | on success there are max(1, #ABI targetings) * max(1, #density targetings) shards |
| ShardProperties.PartitionInEncounterOrder | src/main/java/com/android/tools/build/bundletool/splitters/BundleSharder.java:359-362 | partition groups come in the order in which their targeting is first encountered |
| ShardProperties.SubsetInEncounterOrder | src/main/java/com/android/tools/build/bundletool/splitters/BundleSharder.java:323-334 | the subset lists its splits in the order they are first encountered in the input |
| ShardProperties.MastersInEncounterOrder | src/main/java/com/android/tools/build/bundletool/splitters/BundleSharder.java:337-351 | the master splits are listed in the order they are first encountered in the input |
| ShardProperties.LanguagesInEncounterOrder | src/main/java/com/android/tools/build/bundletool/splitters/BundleSharder.java:353-357 | the language splits are listed in the order they are first encountered in the input |
| ShardProperties.GroupsKeepInputOrder | src/main/java/com/android/tools/build/bundletool/splitters/BundleSharder.java:359-362 | each group of the multimap keeps the input order of its splits, and holds no split twice when the input does not |
| ShardProperties.FirstWithKey | src/main/java/com/android/tools/build/bundletool/splitters/BundleSharder.java:359-362 | the first split of a group is the earliest input split with that targeting |
| ShardProperties.GroupHeadsPrecede | src/main/java/com/android/tools/build/bundletool/splitters/BundleSharder.java:359-362 | the first split of an earlier group occurs in the input before the first split of a later group |
| ShardProperties.GroupsInEncounterOrder | src/main/java/com/android/tools/build/bundletool/splitters/BundleSharder.java:246-285 | the ABI (density) groups, and the splits within each, are in first-encounter order of the input; each group is duplicate-free |
| ShardProperties.GroupsAreByTargeting | src/main/java/com/android/tools/build/bundletool/splitters/BundleSharder.java:282-285 | within a group every split has the subset's targeting, is admitted, and shares one targeting; different groups have different targetings |
| ShardProperties.ShardKeysDistinct | src/main/java/com/android/tools/build/bundletool/splitters/BundleSharder.java:290-302 | no two shards stand for the same (ABI targeting, density targeting) pair |
| ShardProperties.ShardsHoldMastersAndLanguages | src/main/java/com/android/tools/build/bundletool/splitters/BundleSharder.java:295-299 | every shard of the product holds every master split and every language split |
| ShardProperties.GroupMembersInSomeShard | src/main/java/com/android/tools/build/bundletool/splitters/BundleSharder.java:290-302 | every member of an ABI or density group is in some shard |
| ShardProperties.GroupingCoversSplits | src/main/java/com/android/tools/build/bundletool/splitters/BundleSharder.java:246-302 | on success every master and language split is in every shard, and every admitted ABI or density split is in some shard |
| ShardProperties.SingleShard | src/main/java/com/android/tools/build/bundletool/splitters/BundleSharder.java:290-302 | with one empty ABI group and one empty density group (the `nonEmpty` substitute), the product is the single shard of all master splits followed by all language splits |
| ShardProperties.NoAbiOrDensityGivesOneShard | src/main/java/com/android/tools/build/bundletool/splitters/BundleSharder.java:234-305 | with well-formed masters and no admitted ABI or density split, grouping gives exactly one shard: the master splits, then the language splits |
| ShardProperties.OnlyMastersGiveOneShard | src/main/java/com/android/tools/build/bundletool/splitters/BundleSharder.java:234-305 | splits that are all default-targeted masters give exactly one shard, the distinct master splits |
| EntryPointProperties.OneMasterPerModule | src/main/java/com/android/tools/build/bundletool/splitters/BundleSharder.java:176-187 | split generation succeeds exactly when one position of the merged splits is a master, and then returns the merged splits |
| EntryPointProperties.FlatSplitsOkIff | src/main/java/com/android/tools/build/bundletool/splitters/BundleSharder.java:131-135 | flattening succeeds exactly when every module's split generation does |
| EntryPointProperties.FlatSplitsFirstError | src/main/java/com/android/tools/build/bundletool/splitters/BundleSharder.java:131-135 | a failed flattening carries the error of the first failing module |
| EntryPointProperties.FlatSplitsMembers | src/main/java/com/android/tools/build/bundletool/splitters/BundleSharder.java:131-135 | a split is in the flat list exactly when it is a split of some module |
| EntryPointProperties.BundleShardsPreconditions | src/main/java/com/android/tools/build/bundletool/splitters/BundleSharder.java:99-102 | a device spec is a defect; with none and no modules, the `checkArgument` defect; otherwise the unfused shards |
| EntryPointProperties.EveryModuleInEveryShard | src/main/java/com/android/tools/build/bundletool/splitters/BundleSharder.java:127-140 | on success each module has exactly one master split, and every shard holds the master and language splits of every module |
| EntryPointProperties.SystemShardIff | src/main/java/com/android/tools/build/bundletool/splitters/BundleSharder.java:110-125 | no device spec is a defect; success exactly with a device spec and exactly one unfused shard, passing that shard, the fusing names and the spec; several shards give the `getOnlyElement` defect |
| EntryPointProperties.SystemShardHoldsEveryModule | src/main/java/com/android/tools/build/bundletool/splitters/BundleSharder.java:110-125 | the system shard holds the master and language splits of every module |
| EntryPointProperties.ApexGrouping | src/main/java/com/android/tools/build/bundletool/splitters/BundleSharder.java:307-321 | success exactly when one candidate remains and it has default targeting; then one shard [master, split] per multi-ABI split, in the order the multi-ABI splits are first encountered; otherwise the `getOnlyElement` or `checkState` defect |
| EntryPointProperties.ApexUsesNoDimension | src/main/java/com/android/tools/build/bundletool/splitters/BundleSharder.java:146-148 | with no sharding dimension only the APEX image pipeline has a splitter |

## Left out

- `ModuleSplitsToShardMerger` (`merge`, `mergeSystemShard`, `mergeApex`) and `D8DexMerger` are not modelled. They do byte-level APK assembly and dex merging in a temporary directory. The entry points stop at the value they hand to the merger.
- The splitter implementations and `SplittingPipeline` are not modelled; their source is not part of this model. Running a pipeline is the uninterpreted `runPipeline`, and only which splitters each pipeline holds is modelled.
- `SameTargetingMerger` and `ModuleSplit.removeSplitName` are the uninterpreted `mergeSameTargeting` and `removeSplitName`.
- `ModuleSplit.forNativeLibraries`, `forResources`, `forApex`, `forAssets`, `forDex` and `forRoot` are the uninterpreted `splitFor`.
- `splitMatchesDeviceSpec` and `ApkMatcher` are the uninterpreted `matchesDevice`. `TargetingProtoUtils.abiUniverse` and `densityUniverse` are the uninterpreted `abiUniverse` and `densityUniverse`.
- Protocol-buffer details are not modelled. `ApkTargeting` keeps only the ABI, screen-density, language and multi-ABI dimensions. `DeviceSpec` and the contents of splits and modules are opaque.
- `Version` (passed to the density splitter), `BundleMetadata` and the text of exception messages are not modelled. The construction of `BundleSharder` is not modelled either.
- ShardProperties.CartesianShardsAt: the shard layout is stated on the product; `GroupingValue` ties a successful grouping to that product. The layout is not restated as one lemma over the grouping.
