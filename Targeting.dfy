/** The values the sharder works on: targeting descriptors, module splits, bundle
    modules and the device specification. All are immutable values. */
module Targeting {

  datatype Option<T> = None | Some(value: T)

  datatype AbiAlias = Armeabi | ArmeabiV7a | Arm64V8a | X86 | X86_64 | Mips | Mips64

  datatype DensityAlias = Ldpi | Mdpi | Tvdpi | Hdpi | Xhdpi | Xxhdpi | Xxxhdpi

  datatype ScreenDensity = Alias(alias: DensityAlias) | Dpi(dpi: nat)

  /** One targeting dimension: the value(s) targeted and the alternatives that other
      splits of the same dimension target. */
  datatype AbiTargeting = AbiTargeting(value: seq<AbiAlias>, alternatives: seq<AbiAlias>)

  datatype ScreenDensityTargeting =
    ScreenDensityTargeting(value: seq<ScreenDensity>, alternatives: seq<ScreenDensity>)

  datatype LanguageTargeting = LanguageTargeting(value: seq<string>, alternatives: seq<string>)

  datatype MultiAbiTargeting =
    MultiAbiTargeting(value: seq<seq<AbiAlias>>, alternatives: seq<seq<AbiAlias>>)

  /** `ApkTargeting`: independent optional dimensions; two descriptors are equal iff
      every field is. */
  datatype ApkTargeting = ApkTargeting(
    abi: Option<AbiTargeting>,
    screenDensity: Option<ScreenDensityTargeting>,
    language: Option<LanguageTargeting>,
    multiAbi: Option<MultiAbiTargeting>)

  /** `ApkTargeting.getDefaultInstance()`: no dimension set. */
  const DefaultTargeting := ApkTargeting(None, None, None, None)

  predicate HasAbiTargeting(t: ApkTargeting) { t.abi.Some? }

  predicate HasScreenDensityTargeting(t: ApkTargeting) { t.screenDensity.Some? }

  predicate HasLanguageTargeting(t: ApkTargeting) { t.language.Some? }

  predicate HasMultiAbiTargeting(t: ApkTargeting) { t.multiAbi.Some? }

  /** A fragment of one module: opaque content, its targeting, whether it is the
      module's master split, and an optional split name. */
  datatype ModuleSplit = ModuleSplit(
    moduleName: string,
    splitName: Option<string>,
    entries: seq<string>,
    targeting: ApkTargeting,
    isMasterSplit: bool)

  /** A module of the bundle; its content is opaque to the sharder. */
  datatype BundleModule = BundleModule(name: string, isIncludedInFusing: bool, entries: seq<string>)

  datatype OptimizationDimension = AbiDimension | ScreenDensityDimension | LanguageDimension

  /** The single device that system-app sharding targets; opaque here, since only
      the device matcher looks inside it. */
  datatype DeviceSpec = DeviceSpec(contents: string)
}
