/**
 * The runtime default-providing extensions for named flags:
 * `StringRemoteValue` and `StringInitializableRemoteValue` over a
 * `String`-raw enum, and the `default` of `RemoteValue`,
 * `StringRemoteValue` and the legacy `RemoteConfigStringValue` over
 * `CaseIterable` types.
 *
 * A `String`-raw enum is given by its raw values in declaration order;
 * case `c` is the index of its raw value, and `allCases` lists the cases in
 * that order. Swift refuses an enum whose raw values repeat, so the lemmas
 * that need it assume `Distinct`.
 */
module StringFlags {
  import opened Wrappers

  predicate Distinct(raws: seq<string>) {
    forall i, j :: 0 <= i < j < |raws| ==> raws[i] != raws[j]
  }

  /** The compiler-synthesized `init?(rawValue:)`: the first case with that raw value. */
  function InitRawValue(raws: seq<string>, s: string): (r: Option<nat>)
    ensures r.None? <==> s !in raws
    ensures r.Some? ==> r.value < |raws| && raws[r.value] == s
    ensures r.Some? ==> forall i :: 0 <= i < r.value ==> raws[i] != s
  {
    if raws == [] then None
    else if raws[0] == s then Some(0)
    else match InitRawValue(raws[1..], s)
      case None => None
      case Some(i) => Some(i + 1)
  }

  /** `var name: String { rawValue }` */
  function Name(raws: seq<string>, c: nat): string
    requires c < |raws|
  {
    raws[c]
  }

  /** `init?(name:) { self.init(rawValue: name) }` */
  function InitName(raws: seq<string>, s: string): (r: Option<nat>)
    ensures r.Some? ==> r.value < |raws| && Name(raws, r.value) == s
  {
    InitRawValue(raws, s)
  }

  /** `init?(name:)` fails exactly on strings that are no case's raw value. */
  lemma InitNameFailsExactly(raws: seq<string>, s: string)
    ensures InitName(raws, s).None? <==> forall c :: 0 <= c < |raws| ==> Name(raws, c) != s
  {
  }

  /** Every case is recovered from its name. */
  lemma {:induction false} NameRoundTrip(raws: seq<string>, c: nat)
    requires Distinct(raws) && c < |raws|
    ensures InitName(raws, Name(raws, c)) == Some(c)
  {
    assert raws[c] in raws;
  }

  /** Every accepted name is the name of the case it yields. */
  lemma NameOfParsed(raws: seq<string>, s: string)
    requires InitName(raws, s).Some?
    ensures Name(raws, InitName(raws, s).value) == s
  {
  }

  /** `static var default: Self { Self.allCases.first! }`: traps on an empty `allCases`. */
  function FirstCase<T>(allCases: seq<T>): (r: T)
    requires |allCases| > 0
    ensures r in allCases
  {
    allCases[0]
  }

  /**
   * The `default` a conforming type ends up with: its own declared `default`
   * when it has one, which the protocol extension's first case does not replace.
   */
  function EffectiveDefault<T>(declared: Option<T>, allCases: seq<T>): (r: T)
    requires declared.Some? || |allCases| > 0
    ensures declared.Some? ==> r == declared.value
    ensures declared.None? ==> r in allCases && r == allCases[0]
  {
    match declared
    case Some(d) => d
    case None => FirstCase(allCases)
  }
}
