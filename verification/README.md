# Experiments: a Dafny model of the flag macros, codecs, keepers and service

Experiments is a Swift package for declaring remote feature flags. An app
declares its flags as enums and structs with attached macros. The package
resolves each flag once: from a debug override, from a remote config
keeper (Firebase), or from the flag type's `default`.

This project models these parts of the package:

- **The macro expansion rules.** The seven macros are `@BoolRemoteValue`,
  `@StringRemoteValue`, `@RemoteValue`, `@BaselineBoolRemoteValue`,
  `@BaselineStringRemoteValue`, `@BaselineRemoteValue` and
  `@RemoteValuesNamespace`. Each role (member, extension, member attribute)
  is a pure function. It maps an abstract declaration (module `Syntax`) to
  its diagnostics and to descriptors of what it generates.
- **The generated and runtime codecs.** This covers the `_baseline` name
  convention, the Bool and (baseline, variant) name codecs, and the
  protocol-extension defaults.
- **The Firebase and legacy keepers' decoding.** This is `value(for:)`,
  `bool(for:)` and `stringValueRepresentation(for:)`.
- **The `RemoteConfigService` cache.** It appears twice:
  - as a pure state transition (`RemoteConfig.Lookup`,
    `RemoteConfig.AfterGetValues`);
  - as a class whose methods are proved against those functions.

Files:

| file | modules |
|---|---|
| `common.dfy` | `Wrappers` (Option), `Strings` (suffixes, the ordering `sorted()` uses, sorted listings) |
| `syntax.dfy` | `Syntax`: declarations, generated-member descriptors, diagnostics |
| `conformances.dfy` | `Conformances`: `Set(required).subtracting(inherited).sorted()` |
| `codecs.dfy` | `BaselineName`, `BoolFlags`, `BoolCodec` |
| `baseline_codecs.dfy` | `BaselineBoolCodec`, `BaselineVariantCodec` |
| `string_flags.dfy` | `StringFlags`: `name`/`init?(name:)`/`default` of string flags |
| `tracking.dfy` | `Tracking`: `shouldTrack` |
| `*_macro.dfy` | one module per macro |
| `keepers.dfy` | `ValueKinds`, `FirebaseKeeper`, `LegacyKeeper` |
| `remote_config_service.dfy` | `RemoteConfig`: the service state, its lookups and the `RemoteConfigService` class |

## Model

| member | source | states |
|---|---|---|
| Syntax.IdentifierNames | Sources/ExperimentsMacros/BoolRemoteValueMacro.swift:121-123 | the names kept are exactly those of identifier-type entries of the inheritance clause; other type syntax is skipped |
| Syntax.FirstNestedEnum | Sources/ExperimentsMacros/BaselineRemoteValueMacro.swift:91-92 | none exactly when no member is a nested enum; otherwise a nested enum that is one of the members |
| Syntax.CaseElements | Sources/ExperimentsMacros/BaselineRemoteValueMacro.swift:95-97 | the element names listed are exactly those of the enum's case declarations |
| Syntax.CaseElementsAppend | Sources/ExperimentsMacros/BaselineRemoteValueMacro.swift:96-97 | the names of two consecutive member lists are the first list's names followed by the second's: order and repetitions are kept |
| Syntax.CaseElementsOfOne | Sources/ExperimentsMacros/BaselineRemoteValueMacro.swift:96-97 | a case declaration contributes its own elements in order, and any other member contributes none |
| Syntax.LiteralEntries | Sources/ExperimentsMacros/BaselineRemoteValueMacro.swift:98-103 | twice as many entries as names; the name at position i gives entry 2i in the baseline group and entry 2i+1 outside it |
| Syntax.MarkUnlessPresent | Sources/ExperimentsMacros/BaselineStringRemoteValueMacro.swift:151-161 | the member-attribute role gives the attribute, or nothing; the attribute is given exactly to a nested declaration of the kind that does not already carry it |
| Conformances.Missing | Sources/ExperimentsMacros/StringRemoteValueMacroMacro.swift:60-64 | holds exactly the required names that the inheritance clause does not name |
| Conformances.MissingIsSortedDifference | Sources/ExperimentsMacros/StringRemoteValueMacroMacro.swift:64-70 | for a required list written in sorted order, `Missing` is the one strictly sorted listing of the set difference, which is what `sorted()` yields |
| Conformances.RequiredListsSorted | Sources/ExperimentsMacros/BoolRemoteValueMacro.swift:125 | both required sets, as written in the model, are in `sorted()` order |
| BaselineName.Split | Sources/ExperimentsMacros/BaselineBoolRemoteValueMacro.swift:64-65 | the flag is whether the name ends in `_baseline`; with the flag, the token plus the suffix is the name; without it, the token is the name |
| BaselineName.Join | Sources/ExperimentsMacros/BaselineStringRemoteValueMacro.swift:128-130 | the joined name ends in `_baseline` exactly when it is baseline or the token already did |
| BaselineName.SplitJoin | Sources/ExperimentsMacros/BaselineStringRemoteValueMacro.swift:63-71 | splitting a joined name recovers the flag and the token, for a token not ending in `_baseline` |
| BaselineName.JoinSplit | Sources/ExperimentsMacros/BaselineStringRemoteValueMacro.swift:63-71 | joining what was split gives back every name |
| BoolFlags.FromBooleanLiteral | Sources/Experiments/Remote/Values/Concrete/BoolEnumRemoteValue.swift:7-9 | the literal initializer always yields one of the two cases |
| BoolFlags.LiteralCases | Sources/Experiments/Remote/Values/BoolRemoteValue.swift:42-44 | `true` gives `enabled`, `false` gives `disabled` |
| BoolFlags.LiteralIsEnabled | Sources/Experiments/Remote/Values/Concrete/BoolEnumRemoteValue.swift:18-20 | `isEnabled` of the value built from a literal is that literal, when the cases differ |
| BoolFlags.IsEnabledLiteral | Sources/Experiments/Remote/Values/Concrete/BoolEnumRemoteValue.swift:7-20 | rebuilding either case from its `isEnabled` gives the case back |
| BoolFlags.DefaultNotEnabled | Sources/Experiments/Remote/Values/Concrete/BoolEnumRemoteValue.swift:11-13 | the default `disabled` is not enabled, unless the two cases coincide |
| BoolCodec.RawBoolMeansEnabled | Sources/ExperimentsMacros/BoolRemoteValueMacro.swift:65-80 | the generated Bool `rawValue` is true exactly for `enabled`; it and the generated literal initializer are inverse |
| BoolCodec.RawIntIsBit | Sources/ExperimentsMacros/RemoteValueMacro.swift:65-75 | the generated Int `rawValue` is 1 for `enabled` and 0 for `disabled`, and nothing else |
| BaselineBoolCodec.InitName | Sources/ExperimentsMacros/BaselineBoolRemoteValueMacro.swift:63-80 | an accepted name yields a value whose `baseline` is whether the name ends in `_baseline` |
| BaselineBoolCodec.InitNameAcceptsExactly | Sources/ExperimentsMacros/BaselineBoolRemoteValueMacro.swift:63-80 | the generated `init?(name:)` accepts exactly `true`, `false`, `true_baseline` and `false_baseline`, each as the pair it spells |
| BaselineBoolCodec.InitNameRejects | Sources/ExperimentsMacros/BaselineBoolRemoteValueMacro.swift:64-76 | the suffix is stripped only once, and `enabled` and the empty name are refused |
| BaselineBoolCodec.AllCasesComplete | Sources/ExperimentsMacros/BaselineBoolRemoteValueMacro.swift:131-138 | the generated `allCases` has four entries, every pair among them, none repeated |
| BaselineBoolCodec.StatusNameNeverParses | Sources/ExperimentsMacros/BaselineBoolRemoteValueMacro.swift:140-143 | no `name` the macro generates (`Enabled`, `Disabled_baseline`, ...) is accepted by the generated `init?(name:)` |
| BaselineBoolCodec.TokenNameRoundTrip | Sources/ExperimentsMacros/BaselineBoolRemoteValueMacro.swift:63-80 | with names spelled in the tokens the initializer parses, naming and parsing are inverse in both directions |
| BaselineBoolCodec.Default | Sources/ExperimentsMacros/BaselineBoolRemoteValueMacro.swift:145-147 | the generated `default` is in the baseline group, and is enabled exactly when the argument is `true` |
| BaselineVariantCodec.InitName | Sources/ExperimentsMacros/BaselineStringRemoteValueMacro.swift:63-71 | a name is accepted exactly when `Variant(name:)` accepts its token, and then `baseline` is whether it ends in `_baseline` and `variant` is what `Variant(name:)` gives for the token |
| BaselineVariantCodec.Name | Sources/ExperimentsMacros/BaselineStringRemoteValueMacro.swift:128-130 | the generated `name` ends in `_baseline` exactly when baseline, or when the variant's own name does |
| BaselineVariantCodec.RoundTrip | Sources/ExperimentsMacros/BaselineStringRemoteValueMacro.swift:63-130 | naming then parsing gives the value back, when the variant's name/init round-trip and its name does not end in `_baseline` |
| BaselineVariantCodec.NameOfParsed | Sources/ExperimentsMacros/BaselineStringRemoteValueMacro.swift:63-130 | parsing then naming gives the name back, when the variant's name of the parsed token is that token |
| BaselineVariantCodec.FlatMapAllCases | Sources/ExperimentsMacros/BaselineStringRemoteValueMacro.swift:119-126 | `allCases` has two entries per variant, at positions 2i and 2i+1: in the baseline group, then out of it |
| BaselineVariantCodec.AllCasesComplete | Sources/ExperimentsMacros/BaselineStringRemoteValueMacro.swift:119-126 | a pair is in `allCases` exactly when its variant is a case |
| BaselineVariantCodec.AllCasesDistinct | Sources/ExperimentsMacros/BaselineStringRemoteValueMacro.swift:119-126 | distinct variants give an `allCases` without repetition |
| BaselineVariantCodec.Default | Sources/ExperimentsMacros/BaselineStringRemoteValueMacro.swift:132-134 | the generated `default` is the baseline group of `Variant.default` |
| StringFlags.InitRawValue | Sources/Experiments/Remote/Values/StringRemoteValue.swift:29-31 | none exactly when no case has the raw value; otherwise the first case that has it |
| StringFlags.InitName | Sources/Experiments/Remote/Values/StringRemoteValue.swift:27-31 | an accepted name is the name of the case it yields |
| StringFlags.InitNameFailsExactly | Sources/Experiments/Remote/Values/Core/StringInitializableRemoteValue.swift:8-12 | `init?(name:)` fails exactly on strings that are no case's name |
| StringFlags.NameRoundTrip | Sources/Experiments/Remote/Values/StringRemoteValue.swift:27-31 | every case is recovered from its name, when the raw values are distinct |
| StringFlags.NameOfParsed | Sources/Experiments/Remote/Values/Core/StringInitializableRemoteValue.swift:8-12 | the name of a parsed case is the string parsed |
| StringFlags.FirstCase | Sources/Experiments/Remote/Values/Core/RemoteValue.swift:6-8 | the extension's `default` is one of `allCases`; it needs `allCases` to be non-empty, as `first!` does |
| StringFlags.EffectiveDefault | Sources/Experiments/Remote/Values/StringRemoteValue.swift:10-18 | a declared `default` wins; otherwise the default is the first of `allCases` |
| Tracking.ShouldTrack | Sources/Experiments/Tracking/ExperimentalGroupTrackable.swift:9-15 | a value is tracked exactly when it is not a `BaselineStringRemoteValue` in the baseline group |
| Tracking.TracksParsedNames | Sources/ExperimentsTests/ExperimentalGroupTrackableTests.swift:19-27 | a flag parsed from `a_baseline` is in the baseline group and not tracked; one parsed from `a` is tracked |
| BoolRemoteValueMacro.DiagnosticOf | Sources/ExperimentsMacros/BoolRemoteValueMacro.swift:9-16 | `doubleDefault` is a warning and the others are errors |
| BoolRemoteValueMacro.Guard | Sources/ExperimentsMacros/BoolRemoteValueMacro.swift:49-63 | accepts exactly an enum whose first inherited type is not `String`; otherwise `incorrectType` or `unsupportedEnum` |
| BoolRemoteValueMacro.MemberExpansion | Sources/ExperimentsMacros/BoolRemoteValueMacro.swift:41-88 | a refused declaration gets one diagnostic and no members; an accepted one gets the two cases, the literal initializer and the Bool `rawValue` |
| BoolRemoteValueMacro.DefaultDeclaration | Sources/ExperimentsMacros/BoolRemoteValueMacro.swift:160-189 | a `default` is synthesized exactly when none is declared, enabled exactly for the argument `true`; the warning comes exactly when both an argument and a declared `default` exist |
| BoolRemoteValueMacro.ExtensionExpansion | Sources/ExperimentsMacros/BoolRemoteValueMacro.swift:93-158 | refusals mirror the member role; otherwise there is no extension exactly when nothing is missing and a `default` is declared, the conformances are the missing ones, and a `default` is defined exactly when none is declared |
| BoolRemoteValueMacro.RejectsNonEnum | Sources/ExperimentsMacros/BoolRemoteValueMacro.swift:103-108 | a non-enum is refused with `incorrectType` by both roles, and nothing is generated |
| BoolRemoteValueMacro.RejectsStringEnum | Sources/ExperimentsMacros/BoolRemoteValueMacro.swift:112-118 | an enum whose clause starts with `String` is refused with `unsupportedEnum` by both roles |
| BoolRemoteValueMacro.AcceptsOtherEnums | Sources/ExperimentsMacros/BoolRemoteValueMacro.swift:57-87 | every other enum gets `enabled`, `disabled`, `init(booleanLiteral:)` and `rawValue`, with no error |
| BoolRemoteValueMacro.ConformancesAreSortedDifference | Sources/ExperimentsMacros/BoolRemoteValueMacro.swift:121-153 | the extension lists exactly the missing required conformances in `sorted()` order, and none the enum names |
| BoolRemoteValueMacro.DefaultTable | Sources/ExperimentsMacros/BoolRemoteValueMacro.swift:177-188 | the whole default table: a declared default wins; otherwise `true` gives `.enabled` and anything else `.disabled`; the warning comes exactly for an argument beside a declared default |
| BoolRemoteValueMacro.NothingLeftToAdd | Sources/ExperimentsMacros/BoolRemoteValueMacro.swift:139-141 | once the generated conformances and `default` are written by hand, the extension role adds and reports nothing |
| BoolRemoteValueMacro.NoIsEnabledNoEquatable | Sources/ExperimentsMacros/BoolRemoteValueMacro.swift:70-87 | the rule never generates `isEnabled` and never declares `Equatable` |
| StringRemoteValueMacro.ExtensionExpansion | Sources/ExperimentsMacros/StringRemoteValueMacroMacro.swift:29-73 | `incorrectType` for a non-enum and `unsupportedEnum` for an enum whose clause does not start with `String`; otherwise no diagnostic, and an extension exactly when some required conformance is missing, holding exactly those |
| StringRemoteValueMacro.OnlyErrors | Sources/ExperimentsMacros/StringRemoteValueMacroMacro.swift:41-56 | every diagnostic is an error and comes with no extension; there is none exactly for a `String`-first enum |
| StringRemoteValueMacro.ConformancesAreSortedDifference | Sources/ExperimentsMacros/StringRemoteValueMacroMacro.swift:60-71 | the extension lists exactly the missing conformances in `sorted()` order |
| StringRemoteValueMacro.Idempotent | Sources/ExperimentsMacros/StringRemoteValueMacroMacro.swift:66-67 | applying the rule to the enum with the added conformances written out adds nothing |
| RemoteValueMacro.MemberExpansion | Sources/ExperimentsMacros/RemoteValueMacro.swift:31-82 | `incorrectType` for a non-enum; nothing for a `String`-first enum; `unsupportedEnum` for any other clause; the cases and an Int `rawValue` for an enum with no clause |
| RemoteValueMacro.ExtensionExpansion | Sources/ExperimentsMacros/RemoteValueMacro.swift:87-129 | the string extension exactly when `String` is the sole inherited type; the Bool conformances for an enum with no clause; the same refusals as the member role |
| RemoteValueMacro.Classification | Sources/ExperimentsMacros/RemoteValueMacro.swift:39-61 | for an enum: members exactly when there is no clause, refusal exactly for a clause not starting with `String`, and no diagnostic otherwise |
| RemoteValueMacro.BareEnumLacksLiteralInit | Sources/ExperimentsMacros/RemoteValueMacro.swift:63-81 | a bare enum gets `enabled`, `disabled`, `rawValue` and the `BoolRemoteValue` conformance, but no `init(booleanLiteral:)` |
| RemoteValueMacro.StringEnumAllOrNothing | Sources/ExperimentsMacros/RemoteValueMacro.swift:106-114 | a `String` enum gets all three conformances or none, never some of them |
| BaselineBoolRemoteValueMacro.Guard | Sources/ExperimentsMacros/BaselineBoolRemoteValueMacro.swift:41-55 | accepts exactly a struct with no nested enum; otherwise `incorrectType` or `variantEnum` |
| BaselineBoolRemoteValueMacro.MemberExpansion | Sources/ExperimentsMacros/BaselineBoolRemoteValueMacro.swift:33-93 | a refused declaration gets one diagnostic; an accepted one gets `baseline`, `isEnabled` and the two initializers |
| BaselineBoolRemoteValueMacro.ExtensionExpansion | Sources/ExperimentsMacros/BaselineBoolRemoteValueMacro.swift:100-152 | an accepted struct always gets the three conformances, the four-pair `allCases`, `name` and the codec's baseline `default` for the argument |
| BaselineBoolRemoteValueMacro.Rejections | Sources/ExperimentsMacros/BaselineBoolRemoteValueMacro.swift:110-124 | both refusals are reported by both roles, and there is no diagnostic exactly for a struct with no nested enum |
| BaselineBoolRemoteValueMacro.PairsAreAllCases | Sources/ExperimentsMacros/BaselineBoolRemoteValueMacro.swift:131-138 | the literal listing is the codec's `allCases`, entry by entry, and holds every pair |
| BaselineBoolRemoteValueMacro.IgnoresExistingDeclarations | Sources/ExperimentsMacros/BaselineBoolRemoteValueMacro.swift:126-129 | any two accepted structs expand identically, whatever they inherit or declare (a `default` included), and with no diagnostic |
| BaselineStringRemoteValueMacro.Guard | Sources/ExperimentsMacros/BaselineStringRemoteValueMacro.swift:41-55 | accepts exactly a struct with a nested enum; otherwise `incorrectType` or `noVariantEnum` |
| BaselineStringRemoteValueMacro.MemberExpansion | Sources/ExperimentsMacros/BaselineStringRemoteValueMacro.swift:33-84 | a refused declaration gets one diagnostic; an accepted one gets `baseline`, `variant` and the two initializers |
| BaselineStringRemoteValueMacro.ExtensionExpansion | Sources/ExperimentsMacros/BaselineStringRemoteValueMacro.swift:91-139 | an accepted struct gets `CaseIterable, BaselineStringRemoteValue`, the flat-mapped `allCases`, `name` and the baseline `default` |
| BaselineStringRemoteValueMacro.MemberAttributes | Sources/ExperimentsMacros/BaselineStringRemoteValueMacro.swift:145-162 | the role adds `@StringRemoteValue` or nothing |
| BaselineStringRemoteValueMacro.Rejections | Sources/ExperimentsMacros/BaselineStringRemoteValueMacro.swift:101-115 | both refusals are reported by both roles, and there is no diagnostic exactly for a struct with a nested enum |
| BaselineStringRemoteValueMacro.MarksEnumsOnce | Sources/ExperimentsMacros/BaselineStringRemoteValueMacro.swift:151-161 | a member is marked exactly when it is a nested enum without the attribute; a marked enum is not marked again |
| BaselineStringRemoteValueMacro.StringVariantBecomesNamed | Sources/ExperimentsMacros/BaselineStringRemoteValueMacro.swift:151-157 | a `Variant: String` is marked and then gets all three string conformances, so the calls to `Variant(name:)` and `variant.name` resolve |
| BaselineRemoteValueMacro.MemberExpansion | Sources/ExperimentsMacros/BaselineRemoteValueMacro.swift:30-67 | only a non-struct is refused; any struct gets the four members, whether or not it has a `Variant` |
| BaselineRemoteValueMacro.ExtensionExpansion | Sources/ExperimentsMacros/BaselineRemoteValueMacro.swift:74-125 | a struct gets no diagnostic, and an extension exactly when it has a nested enum; `allCases` then lists that enum's case names literally |
| BaselineRemoteValueMacro.MemberAttributes | Sources/ExperimentsMacros/BaselineRemoteValueMacro.swift:131-148 | the role adds `@RemoteValue` or nothing |
| BaselineRemoteValueMacro.MissingVariantIsSilent | Sources/ExperimentsMacros/BaselineRemoteValueMacro.swift:91-94 | a struct without a nested enum draws no diagnostic, gets the members, and gets no extension |
| BaselineRemoteValueMacro.LiteralAllCasesIsFlatMap | Sources/ExperimentsMacros/BaselineRemoteValueMacro.swift:95-111 | the literal listing, read as values, equals entry by entry the flat map over the case names in source order |
| BaselineRemoteValueMacro.FirstEnumOnly | Sources/ExperimentsMacros/BaselineRemoteValueMacro.swift:91-97 | only the first nested enum's cases are listed |
| BaselineRemoteValueMacro.StringVariantBecomesNamed | Sources/ExperimentsMacros/BaselineRemoteValueMacro.swift:137-143 | a `Variant: String` is marked `@RemoteValue`; it gets the string conformances only when `String` is all it lists |
| RemoteValuesNamespaceMacro.MemberAttributes | Sources/ExperimentsMacros/RemoteValuesNamespaceMacro.swift:17-35 | a nested enum or struct gets the one attribute its kind calls for (`@RemoteValue`, `@BaselineRemoteValue`) unless it already carries it; every other member gets none |
| RemoteValuesNamespaceMacro.Attributes | Sources/ExperimentsMacros/RemoteValuesNamespaceMacro.swift:11-36 | each member's attributes depend on that member alone |
| RemoteValuesNamespaceMacro.MarksOnce | Sources/ExperimentsMacros/RemoteValuesNamespaceMacro.swift:17-32 | a nested enum or struct is marked exactly when it lacks its attribute, and once marked it is not marked again |
| RemoteValuesNamespaceMacro.IgnoresInheritance | Sources/ExperimentsMacros/RemoteValuesNamespaceMacro.swift:17-24 | the inheritance clause is never consulted |
| RemoteValuesNamespaceMacro.EnumOutcomes | Sources/ExperimentsMacros/RemoteValuesNamespaceMacro.swift:17-24 | under the namespace, a bare enum becomes a Bool flag, a `String` enum a string flag, and an `Int` enum is refused |
| ValueKinds.Dispatch | Sources/FirebaseExperiments/FirebaseRemoteConfigKeeper.swift:33-40 | string-initializable types are decoded from the string, other bool-initializable types from the Bool, and any other type yields nothing |
| FirebaseKeeper.Bool | Sources/FirebaseExperiments/FirebaseRemoteConfigKeeper.swift:53-60 | none exactly for the empty string; otherwise whether the string is exactly `true` |
| FirebaseKeeper.StringValueRepresentation | Sources/FirebaseExperiments/FirebaseRemoteConfigKeeper.swift:42-47 | the string exactly when it is non-empty |
| FirebaseKeeper.Value | Sources/FirebaseExperiments/FirebaseRemoteConfigKeeper.swift:33-40 | string types get `init?(name:)` of the (possibly empty) string; bool-only types are none exactly for the empty string, and otherwise built from whether it is `true` |
| FirebaseKeeper.BoolDecoding | Sources/FirebaseExperiments/FirebaseRemoteConfigKeeper.swift:53-60 | an absent key is none, `true` is true, and any other non-empty string is false |
| FirebaseKeeper.BoolFlagNeverIncorrect | Sources/FirebaseExperiments/FirebaseRemoteConfigKeeper.swift:33-60 | a bool-only flag has no value exactly when it has no representation |
| FirebaseKeeper.StringFlagIncorrect | Sources/FirebaseExperiments/FirebaseRemoteConfigKeeper.swift:33-47 | a string flag has a representation but no value exactly when its string is non-empty and refused by `init?(name:)` |
| FirebaseKeeper.StringCheckedFirst | Sources/FirebaseExperiments/FirebaseRemoteConfigKeeper.swift:34-37 | a type offering both initializers is decoded as a string only |
| LegacyKeeper.Bool | Sources/FirebaseExperiments/RemoteConfigKeeper.swift:48-56 | none for a missing or empty string; otherwise whether it is exactly `true` |
| LegacyKeeper.Value | Sources/FirebaseExperiments/RemoteConfigKeeper.swift:35-42 | string types get `init?(rawValue:)` of the string, and nothing when the SDK gives no string; bool types decode as `bool(for:)` says |
| LegacyKeeper.AgreesWithFirebase | Sources/FirebaseExperiments/RemoteConfigKeeper.swift:35-60 | the two keepers agree on every key the config holds, and on every key when an unheld name reads as the empty string; when it reads as nothing, bool types still agree and only the Firebase keeper parses the empty string |
| RemoteConfig.Resolve | Sources/Experiments/Services/RemoteConfigService.swift:42-47 | a debug value wins; otherwise the keeper's value |
| RemoteConfig.Lookup | Sources/Experiments/Services/RemoteConfigService.swift:32-74 | the type's cache entry becomes the returned value and nothing else in the cache changes; `allKeys` is untouched; the lists only grow; on a miss the value is the resolved one or the type's `default` |
| RemoteConfig.CacheHit | Sources/Experiments/Services/RemoteConfigService.swift:36-39 | a cached type is answered from the cache, with no source consulted and no change |
| RemoteConfig.DebugFirst | Sources/Experiments/Services/RemoteConfigService.swift:41-47 | when a debug value exists, the keeper is never consulted |
| RemoteConfig.ReportsAtMostOne | Sources/Experiments/Services/RemoteConfigService.swift:49-60 | on a miss with no value, exactly one list grows by one entry and the matching hook is the one event (`incorrectValues` and `trackIncorrectValue` when the keeper has a representation, `missingKeys` and `trackKeyNotFound` otherwise); with a value, neither list grows and at most `trackExperimentalGroup` is called |
| RemoteConfig.TracksOnlyResolvedValues | Sources/Experiments/Services/RemoteConfigService.swift:62-65 | `trackExperimentalGroup` is called exactly when a miss resolves a value that is trackable and whose own `shouldTrack` holds, and with that value |
| RemoteConfig.DefaultShouldTrack | Sources/Experiments/Tracking/ExperimentalGroupTrackable.swift:9-15 | with the protocol extension's `shouldTrack`, no value in the baseline group is ever reported, and a trackable value outside it is reported on a miss |
| RemoteConfig.SameTypeSharesValue | Sources/Experiments/Services/RemoteConfigService.swift:16-26 | a second key of the same type gets the first key's value and is never looked up or reported |
| RemoteConfig.ListsOnlyGrow | Sources/Experiments/Services/RemoteConfigService.swift:95-99 | a run of lookups never removes a report or a cached type |
| RemoteConfig.EachTypeReportedOnce | Sources/Experiments/Services/RemoteConfigService.swift:32-74 | in a run of lookups, each type is reported at most once, and only if it was not cached before |
| RemoteConfig.GetValuesKeepsHistory | Sources/Experiments/Services/RemoteConfigService.swift:95-106 | `getValues` records its keys and never clears the lists, so its batch report repeats earlier missing keys |
| RemoteConfig.BatchReportsWhenNonEmpty | Sources/Experiments/Services/RemoteConfigService.swift:100-105 | each batch report is made exactly when its list is non-empty, after the lookups' reports, and changes nothing else |
| RemoteConfig.FirebaseSources | Sources/FirebaseExperiments/FirebaseRemoteConfigKeeper.swift:33-47 | the service over the Firebase keeper has no debug value |
| RemoteConfig.BoolFlagNeverIncorrect | Sources/Experiments/Services/RemoteConfigService.swift:50-59 | through the Firebase keeper, a bool-only flag is never recorded as an incorrect value |
| RemoteConfig.RemoteConfigService.constructor | Sources/Experiments/Services/RemoteConfigService.swift:12-14 | a new service has an empty cache, no reports and no keys |
| RemoteConfig.RemoteConfigService.GetRemoteValue | Sources/Experiments/Services/RemoteConfigService.swift:32-74 | the new state and the returned value are those `Lookup` gives for the old state |
| RemoteConfig.RemoteConfigService.GetValues | Sources/Experiments/Services/RemoteConfigService.swift:95-106 | the new state is that of `AfterGetValues`: the keys recorded, each key looked up in order, then the batch reports |
| RemoteConfig.RemoteConfigService.GetRemoteValuePublisher | Sources/Experiments/Services/RemoteConfigService.swift:77-87 | an existing entry is returned untouched; an absent one is first created by a lookup |

## Where the model follows the code rather than the tests or documentation

- `@BoolRemoteValue` generates `var rawValue: Bool`. It generates no
  `isEnabled` and never declares `Equatable`, although
  `Sources/MacrosTests/BoolRemoteValueMacroTests.swift` expects both
  (`BoolRemoteValueMacro.NoIsEnabledNoEquatable`).
- `@RemoteValue` adds `Equatable` to both of its extensions.
  `Sources/MacrosTests/RemoteValueMacroTests.swift` expects the extensions
  without it.
- A bare enum under `@RemoteValue` gets an Int `rawValue` and no
  `init(booleanLiteral:)`. The `BoolRemoteValue` protocol it is declared to
  conform to requires a Bool `rawValue` and that initializer
  (`RemoteValueMacro.BareEnumLacksLiteralInit`).
- `@RemoteValuesNamespace` applies only `@RemoteValue` and
  `@BaselineRemoteValue`. The expected expansion in
  `Sources/MacrosTests/RemoteValuesNamespaceMacroTests.swift` (lines 44-62)
  shows `@StringRemoteValue`, `@BaselineStringRemoteValue`,
  `@BoolRemoteValue` and `@BaselineBoolRemoteValue` chosen by the member's
  shape (`RemoteValuesNamespaceMacro.IgnoresInheritance`).
- `@BaselineRemoteValue` on a struct with no nested enum reports nothing.
  It still generates members that name a non-existent `Variant`
  (`BaselineRemoteValueMacro.MissingVariantIsSilent`).
- The macros make types conform to `StringRemoteValue` and
  `BoolRemoteValue`. The Firebase keeper only decodes
  `StringInitializableRemoteValue` and `BoolInitializableRemoteValue`
  types. The model gives a type's initializers to the keepers as an explicit
  `ValueKinds.ValueKind`, so either wiring can be stated.

## Left out

- Printing syntax, trivia, diagnostic messages and `MessageID`s. A rule's
  output is a descriptor (module `Syntax`), not source text.
- `MacroExpansionContext` and the syntax node a diagnostic is attached to:
  only the diagnostic's identity and severity are kept.
- `Plugins.swift` and the macro declarations: they only register the rules.
- Swift's dynamic casts (`as? StringInitializableRemoteValue.Type`,
  `as? ExperimentalGroupTrackable`, `as? BaselineStringRemoteValue`,
  `as? T`). They become explicit parameters: `ValueKind`,
  `Sources.trackable` and `Sources.shouldTrack`, a type's own
  implementation of the requirement; `RemoteConfig.DefaultShouldTrack`
  states what the protocol extension's default implies. The cache is keyed by type,
  so its `as? T` always succeeds and is not modelled.
- Combine. The publisher's current value is all that
  `RemoteConfig.RemoteConfigService.GetRemoteValuePublisher` returns.
  Subscriptions and later updates are not part of this model.
- `@Atomic` and thread safety: the service is modelled single-threaded.
- The tracking hooks' side effects. The overridable hooks (`trackKeyNotFound`,
  `trackIncorrectValue`, `trackExperimentalGroup`, `trackKeysNotFound`,
  `trackIncorrectValues`) are recorded as events in call order. What a
  subclass does with them is not modelled.
- `debugValue(for:)` is an overridable hook that returns `nil` by default.
  It is the parameter `Sources.debugValue`.
- `fetch()`, `fetchAndActivate`, `currentRemoteData` and the network. The
  keepers read an activated config, given as a map from key name to string.
- FirebaseKeeper.StringValue: Firebase's `config[name].stringValue` is
  assumed to be the empty string for a name the config does not hold. The
  Firebase SDK is not part of this model.
- LegacyKeeper.StringValue: what the optional `config[name].stringValue` of
  the SDK this keeper was written against gives for a name the config does
  not hold is not part of this model; it is the parameter `unheld`. Where
  `LegacyKeeper.AgreesWithFirebase` states the two keepers diverge, that
  follows from this parameter and from the assumption under
  FirebaseKeeper.StringValue, not from either SDK.
- Swift `String` semantics: names, raw values and suffixes are compared as
  sequences of code points. Swift compares strings by canonical
  equivalence and `hasSuffix`/`dropLast` work on grapheme clusters, so the
  model is exact for ASCII names (every name the rules and tests use) only.
- The keepers' `int(for:)`: it is never called.
- `experimentalGroupKey`/`experimentalGroupValue` and the other
  interface-only protocol requirements: they have no behaviour here.
- The test targets, and the `MacrosClient` demonstration target.
- StringFlags.FirstCase: an empty `allCases` traps in Swift (`first!`). The
  model excludes it with a precondition instead of modelling the trap.

## Findings

| source | as written | input that shows it | evidently intended | confidence | as-written member | corrected member |
|---|---|---|---|---|---|---|
| Sources/ExperimentsMacros/BaselineBoolRemoteValueMacro.swift:140-143 | the generated `name` spells the status `Enabled`/`Disabled`, but the generated `init?(name:)` (lines 63-80) accepts only `true`/`false` | `BaselineBool(baseline: true, isEnabled: true)` has the name `Enabled_baseline`, and `init?(name: "Enabled_baseline")` is `nil` | `name` spells the tokens the initializer parses, so that `init?(name: v.name) == v` | not executed | BaselineBoolCodec.StatusNameNeverParses | BaselineBoolCodec.TokenNameRoundTrip |
