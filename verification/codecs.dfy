/**
 * The `_baseline` name convention shared by every generated `init?(name:)`
 * and `name`: a trailing `_baseline` marks the control group.
 */
module BaselineName {
  import opened Strings

  /** `"_baseline"`, whose `count` (9) is what `dropLast` removes. */
  const Suffix: string := "_baseline"

  /**
   * `let baseline = name.hasSuffix("_baseline")` and
   * `let name = baseline ? String(name.dropLast("_baseline".count)) : name`:
   * the baseline flag and the token left once one suffix is removed.
   */
  function Split(name: string): (r: (bool, string))
    ensures r.0 == HasSuffix(name, Suffix)
    ensures r.0 ==> r.1 + Suffix == name
    ensures !r.0 ==> r.1 == name
  {
    var baseline := HasSuffix(name, Suffix);
    (baseline, if baseline then DropLast(name, |Suffix|) else name)
  }

  /** `baseline ? token + "_baseline" : token` */
  function Join(baseline: bool, token: string): (r: string)
    ensures HasSuffix(r, Suffix) <==> baseline || HasSuffix(token, Suffix)
  {
    var r := if baseline then token + Suffix else token;
    assert baseline ==> r[|r| - |Suffix|..] == Suffix;
    r
  }

  /** Splitting undoes joining, for a token that does not itself end in the suffix. */
  lemma SplitJoin(baseline: bool, token: string)
    requires !HasSuffix(token, Suffix)
    ensures Split(Join(baseline, token)) == (baseline, token)
  {
    if baseline {
      var n := token + Suffix;
      assert DropLast(n, |Suffix|) == n[..|n| - |Suffix|] == token;
    }
  }

  /** Joining undoes splitting: no name is lost by the convention. */
  lemma JoinSplit(name: string)
    ensures Join(Split(name).0, Split(name).1) == name
  {
  }
}

/**
 * The runtime default-providing extensions for enabled/disabled flags:
 * `BoolEnumRemoteValue` (declared in two files with the same bodies) and the
 * legacy `RemoteConfigBoolValue`. `Self.enabled` and `Self.disabled` are any
 * two values of the conforming type.
 */
module BoolFlags {

  /** `init(booleanLiteral value: Bool) { self = value ? .enabled : .disabled }` */
  function FromBooleanLiteral<T>(enabled: T, disabled: T, value: bool): (r: T)
    ensures r == enabled || r == disabled
  {
    if value then enabled else disabled
  }

  /** `static var default: Self { disabled }` */
  function DefaultFlag<T>(enabled: T, disabled: T): T {
    disabled
  }

  /** `var isEnabled: Bool { self == .enabled }` */
  predicate IsEnabled<T(==)>(enabled: T, x: T) {
    x == enabled
  }

  /** The literal initializer maps `true` to `enabled` and `false` to `disabled`. */
  lemma LiteralCases<T>(enabled: T, disabled: T)
    ensures FromBooleanLiteral(enabled, disabled, true) == enabled
    ensures FromBooleanLiteral(enabled, disabled, false) == disabled
  {
  }

  /** `isEnabled` reads back the literal, provided the two cases differ. */
  lemma LiteralIsEnabled<T>(enabled: T, disabled: T, value: bool)
    requires enabled != disabled
    ensures IsEnabled(enabled, FromBooleanLiteral(enabled, disabled, value)) == value
  {
  }

  /** The literal built from `isEnabled` is the value itself, for either case. */
  lemma IsEnabledLiteral<T>(enabled: T, disabled: T, x: T)
    requires x == enabled || x == disabled
    ensures FromBooleanLiteral(enabled, disabled, IsEnabled(enabled, x)) == x
  {
  }

  /** The default is not enabled, unless the two cases coincide. */
  lemma DefaultNotEnabled<T>(enabled: T, disabled: T)
    ensures IsEnabled(enabled, DefaultFlag(enabled, disabled)) <==> enabled == disabled
  {
  }
}

/**
 * The bodies `@BoolRemoteValue` and `@RemoteValue` generate for a bare enum:
 * the cases `enabled`/`disabled`, `init(booleanLiteral:)` and a `rawValue`.
 */
module BoolCodec {
  import BoolFlags

  /** The two cases the macros add. */
  datatype BoolCase = Enabled | Disabled

  function FromLiteral(value: bool): BoolCase {
    BoolFlags.FromBooleanLiteral(Enabled, Disabled, value)
  }

  /** `var rawValue: Bool` from `@BoolRemoteValue`. */
  function RawBool(c: BoolCase): bool {
    match c
    case Enabled => true
    case Disabled => false
  }

  /** `var rawValue: Int` from `@RemoteValue`. */
  function RawInt(c: BoolCase): int {
    match c
    case Enabled => 1
    case Disabled => 0
  }

  /** The Bool accessor is true exactly for `enabled`, and reads back the literal. */
  lemma RawBoolMeansEnabled(c: BoolCase, value: bool)
    ensures RawBool(c) <==> BoolFlags.IsEnabled(Enabled, c)
    ensures RawBool(FromLiteral(value)) == value
    ensures FromLiteral(RawBool(c)) == c
  {
  }

  /** The Int accessor is 1 for `enabled` and 0 for `disabled`, so it never reads as another number. */
  lemma RawIntIsBit(c: BoolCase)
    ensures RawInt(c) == 0 || RawInt(c) == 1
    ensures RawInt(c) == 1 <==> c == Enabled
  {
  }
}
